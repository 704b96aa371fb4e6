/** The guard's event handlers: what each does to the store, and every request it sends. A handler is
    one step over the store. */
module Engine {
  import opened Options
  import opened Lists
  import opened GuardState
  import opened GuardRules
  import Filters
  import GuardStore
  import Health
  import KickAll

  class Guard {
    const store: GuardStore.Store
    const health: Health.HealthPool
    var clients: set<Mid>
    var primaries: set<Mid>
    var members: set<(Gid, Mid)>
    var quarantine: map<(Gid, Mid), int>
    var warned: map<string, int>
    ghost var trace: seq<Emission>
    /** What the handlers were called for, as the events they answer. */
    ghost var served: seq<Event>

    ghost predicate Valid()
      reads this, store
    {
      store.Valid() && AllSafe(trace)
    }

    constructor (backing: GuardStore.Store)
      requires backing.Valid()
      ensures Valid() && trace == [] && served == [] && store == backing && fresh(health)
    {
      store := backing;
      health := new Health.HealthPool();
      clients, primaries, members, quarantine, warned, trace, served := {}, {}, {}, map[], map[], [], [];
    }

    function View(now: int): Scene
      reads this, health
    {
      Scene(health.bots, now, clients, members)
    }

    /** What looking up the chat teaches about the bot's own membership. */
    function Seen(before: set<(Gid, Mid)>, group: Gid, bot: Mid, answer: Answer): set<(Gid, Mid)> {
      match answer
      case LookupFailed => before
      case NotInside => before - {(group, bot)}
      case _ => before + {(group, bot)}
    }

    /** The three actions share one shape: confirm membership, act, record the outcome. */
    method Act(deed: Deed, bot: Mid, group: Gid, targets: seq<Mid>, answer: Answer, now: int, ghost cause: Cause)
      returns (ok: bool)
      requires Valid()
      requires deed.Kick? ==> forall m | m in targets :: SafeTarget(store.state, group, cause, m)
      modifies this`members, this`trace, health
      ensures Valid() && ok == answer.Granted?
      ensures members == Seen(old(members), group, bot, answer)
      ensures OneReport(old(health.bots), health.bots, bot)
      ensures trace == old(trace)
                + if Sent(answer) then [Emission(deed, bot, group, targets, cause, store.state)] else []
    {
      hide SafeTarget;
      match answer {
        case LookupFailed =>
          return false;
        case NotInside =>
          members := members - {(group, bot)};
          return false;
        case _ =>
          members := members + {(group, bot)};
          trace := trace + [Emission(deed, bot, group, targets, cause, store.state)];
          var action := match deed case Kick => Health.Kick case Cancel => Health.Cancel case Invite => Health.Invite;
          var report := Health.Report(bot, action, if answer.Granted? then Health.Done else Health.Failed, now);
          health.Record(report);
          ok := answer.Granted?;
      }
    }

    method Enumerate(candidates: set<Mid>) returns (s: seq<Mid>)
      ensures forall m :: m in s <==> m in candidates
      ensures NoDuplicates(s)
    {
      var todo := candidates;
      s := [];
      while todo != {}
        invariant todo <= candidates && NoDuplicates(s)
        invariant forall m :: m in s <==> m in candidates && m !in todo
        decreases todo
      {
        var m :| m in todo;
        s, todo := s + [m], todo - {m};
      }
    }

    /** A bot to act with: any connected member but the excluded one, best health first; failing that,
        the bot that received the event. */
    method ProtectorFor(group: Gid, excluded: Mid, fallback: Mid, now: int) returns (protector: Option<Mid>)
      ensures protector.Some? <==> HasProtector(View(now), group, excluded, fallback)
      ensures protector.Some? ==> Protects(View(now), group, excluded, fallback, protector.value)
    {
      hide Health.Ranked, Health.Best;
      var mids := Inside(View(now), group, excluded);
      if mids != {} {
        var listed := Enumerate(mids);
        var ranked := health.Rank(listed, now);
        Health.RankedRanks(health.bots, now, mids, listed);
        return Some(ranked[0]);
      }
      if fallback != excluded {
        return Some(fallback);
      }
      return None;
    }

    method WarActive(group: Gid, now: int) returns (war: War, active: bool)
      requires Valid()
      modifies store
      ensures Valid() && store.state == AfterWar(old(store.state), group, now)
      ensures war == WarSeen(old(store.state), group, now) && active == war.enabled
    {
      hide Inv;
      war := WarOf(store.state, group);
      var over := war.enabled && war.until > 0 && now >= war.until;
      if over {
        store.ExpireWar(group);
      }
      if war.level == 0 {
        war := war.(level := 2);
      }
      if over {
        war := war.(enabled := false);
      }
      active := war.enabled;
    }

    /** Every other usable bot known to be in the group, best health first. */
    method Alternatives(bot: Mid, group: Gid, now: int) returns (ranked: seq<Mid>)
      ensures Health.Ranks(health.bots, now, Inside(View(now), group, bot), ranked)
    {
      hide Health.Ranked, Health.Ranks;
      var candidates := Inside(View(now), group, bot);
      var listed := Enumerate(candidates);
      ranked := health.Rank(listed, now);
      Health.RankedRanks(health.bots, now, candidates, listed);
    }

    /** Kicks with one bot after another until one succeeds. */
    method TryEach(bots: seq<Mid>, group: Gid, actor: Mid, w: World) returns (kicked: bool)
      requires Valid() && SafeTarget(store.state, group, Automatic, actor)
      modifies this`members, this`trace, health
      ensures Valid() && trace == old(trace) + Tries(bots, group, actor, store.state, w.answers)
      ensures kicked <==> exists b :: b in bots && w.answers(b).Granted?
      ensures |bots| == 1 ==> members == Seen(old(members), group, bots[0], w.answers(bots[0]))
      ensures |bots| == 1 ==> OneReport(old(health.bots), health.bots, bots[0])
    {
      hide AllSafe, SafeTarget, Tries, OneReport, Sent;
      var i := 0;
      kicked := false;
      TriesStart(bots, group, actor, store.state, w.answers);
      while i < |bots| && !kicked
        invariant Valid() && 0 <= i <= |bots|
        invariant i == 0 ==> trace == old(trace) && members == old(members) && health.bots == old(health.bots)
        invariant i == 1 ==> members == Seen(old(members), group, bots[0], w.answers(bots[0]))
        invariant i == 1 ==> OneReport(old(health.bots), health.bots, bots[0])
        invariant !kicked ==>
          trace + Tries(bots[i..], group, actor, store.state, w.answers)
            == old(trace) + Tries(bots, group, actor, store.state, w.answers)
        invariant kicked ==> trace == old(trace) + Tries(bots, group, actor, store.state, w.answers)
        invariant kicked ==> i > 0 && exists b :: b in bots && w.answers(b).Granted?
        invariant !kicked ==> forall j | 0 <= j < i :: !w.answers(bots[j]).Granted?
        decreases |bots| - i
      {
        TriesStep(bots, i, group, actor, store.state, w.answers);
        kicked := Act(Kick, bots[i], group, [actor], w.answers(bots[i]), w.now, Automatic);
        i := i + 1;
      }
    }

    /** Blacklists the actor and kicks, falling back on every other usable bot in the group. */
    method EjectAndBlacklist(bot: Mid, group: Gid, actor: Mid, w: World) returns (ok: bool, ghost tried: seq<Mid>)
      requires Valid() && SafeTarget(store.state, group, Automatic, actor)
      modifies this`members, this`trace, health, store
      ensures Valid() && store.state == Apply(old(store.state), AutoBlacklist(group, actor))
      ensures tried != [] && tried[0] == bot && TriedInOrder(old(View(w.now)), group, w.answers, tried)
      ensures trace == old(trace) + Tries(tried, group, actor, store.state, w.answers)
      ensures ok <==> Allowed(old(store.state), AutoBlacklist(group, actor)) && w.saved
                      && exists b :: b in tried && w.answers(b).Granted?
    {
      hide Inv, AllSafe, SafeTarget, Apply, Tries, Health.Ranks, OneReport, Inside, Allowed;
      ghost var scene := View(w.now);
      BlacklistingIsSafe(store.state, group, actor);
      var persisted := store.AutoBlacklist(group, actor, w.saved);
      var kicked := TryEach([bot], group, actor, w);
      tried := [bot];
      if !kicked {
        ghost var now := View(w.now);
        var others := Alternatives(bot, group, w.now);
        OthersUnmoved(scene, now, group, bot, w.answers(bot), others);
        TriesAppend([bot], others, group, actor, store.state, w.answers);
        tried := [bot] + others;
        assert tried[1..] == others;
        kicked := TryEach(others, group, actor, w);
      }
      ok := kicked && persisted;
    }

    /** The first attempt changes nothing about the others. */
    lemma OthersUnmoved(scene: Scene, after: Scene, group: Gid, bot: Mid, answer: Answer, others: seq<Mid>)
      requires after.now == scene.now && after.clients == scene.clients
      requires after.members == Seen(scene.members, group, bot, answer)
      requires OneReport(scene.pool, after.pool, bot)
      requires Health.Ranks(after.pool, after.now, Inside(after, group, bot), others)
      ensures Health.Ranks(scene.pool, scene.now, Inside(scene, group, bot), others)
    {
      hide Health.Ranks, Health.RecordAll;
      assert Inside(after, group, bot) == Inside(scene, group, bot);
      if after.pool != scene.pool {
        var report: Health.Report :| report.mid == bot && after.pool == Health.RecordAll(scene.pool, [report]);
        Health.RecordLeavesOthers(scene.pool, report, scene.now, Inside(scene, group, bot), others);
      }
    }

    /** Nor does any single action of the bot that then ejects. */
    lemma TriedUnmoved(scene: Scene, after: Scene, group: Gid, answer: Answer, answers: Mid -> Answer, tried: seq<Mid>)
      requires tried != [] && after.now == scene.now && after.clients == scene.clients
      requires after.members == Seen(scene.members, group, tried[0], answer)
      requires OneReport(scene.pool, after.pool, tried[0])
      requires TriedInOrder(after, group, answers, tried)
      ensures TriedInOrder(scene, group, answers, tried)
    {
      hide Health.Ranks, OneReport, Inside;
      if !answers(tried[0]).Granted? {
        OthersUnmoved(scene, after, group, tried[0], answer, tried[1..]);
      }
    }

    // ---- Events

    /** A join is answered with a kick for the blacklisted, and in a war for the unprotected when the
        level or a quarantine says so. */
    method HandleJoin(group: Gid, param2: Mid, param3: Mid, self: Mid, w: World)
      requires Valid()
      modifies this`served, this`members, this`trace, health, store
      ensures served == old(served) + [Operation(60, group, param2, param3, [])]
      ensures Valid()
      ensures var s, joined := old(store.state), if param2 == "" then param3 else param2;
        store.state ==
          if group == "" || joined == "" || (joined in s.blacklist && !w.duplicate) then s
          else AfterWar(s, group, w.now)
      ensures var joined := if param2 == "" then param3 else param2;
        trace == old(trace) + if old(RemovesJoiner(store.state, group, joined, w, quarantine)) && Sent(w.answers(self))
                              then [Emission(Kick, self, group, [joined], Automatic, store.state)] else []
    {
      served := served + [Operation(60, group, param2, param3, [])];
      hide Inv, AllSafe, SafeTarget, AfterWar, WarSeen;
      var joined := if param2 == "" then param3 else param2;
      if group == "" || joined == "" {
        return;
      }
      if joined in store.state.blacklist && !w.duplicate {
        BlacklistedIsSafe(store.state, group, joined);
        var _ := Act(Kick, self, group, [joined], w.answers(self), w.now, Automatic);
        return;
      }
      WarExpiryChangesNoRole(store.state, group, w.now);
      var war, active := WarActive(group, w.now);
      if !active {
        return;
      }
      ActiveWar(old(store.state), group, w.now);
      if WarProtected(store.state, group, joined) {
        return;
      }
      if (war.level >= 3 || ((group, joined) in quarantine && w.now < quarantine[(group, joined)])) && !war.dryRun {
        UserIsSafe(store.state, group, joined);
        var _ := Act(Kick, self, group, [joined], w.answers(self), w.now, Automatic);
      }
    }

    /** Somebody was kicked. A bot's attacker is met by bot defence; any other attacker is ejected by the
        rules above; a removed Creator or Owner is invited back. */
    method HandleKick(group: Gid, actor: Mid, target: Mid, self: Mid, w: World)
      returns (ghost agent: Mid, ghost tried: seq<Mid>)
      requires Valid()
      modifies this`served, this`members, this`trace, health, store
      ensures served == old(served) + [Operation(133, group, actor, target, [])]
      ensures Valid()
      ensures var s, t := old(store.state), AfterWar(old(store.state), group, w.now);
        store.state ==
          if group == "" || actor == "" || target == "" || s.creators == [] then s
          else if old(Defends(group, actor, target, self, w)) || old(EjectsKicker(group, actor, target, self, w))
          then Apply(t, AutoBlacklist(group, actor)) else t
      ensures old(Defends(group, actor, target, self, w)) ==>
        trace == old(trace) + [Emission(Kick, self, group, [actor], BotDefence, store.state)]
      ensures old(EjectsKicker(group, actor, target, self, w)) ==>
        tried != [] && tried[0] == agent && Ejection(old(View(w.now)), group, target, self, w.answers, tried)
      ensures old(RestoresKicked(group, actor, target, self, w))
          ==> Protects(old(View(w.now)), group, target, self, agent)
      ensures !old(Defends(group, actor, target, self, w)) ==>
        trace == old(trace)
          + (if old(EjectsKicker(group, actor, target, self, w))
            then Tries(tried, group, actor, store.state, w.answers) else [])
          + Reinvites(old(RestoresKicked(group, actor, target, self, w)), agent, group, target, store.state,
                      w.invites(agent))
    {
      served := served + [Operation(133, group, actor, target, [])];
      hide Inv, AllSafe, SafeTarget, AfterWar, WarSeen, RoleOf, Tries, HasProtector, TriedInOrder, Protects, Ejection;
      hide View, RemovesKicker, RestoresTarget, Apply;
      agent, tried := self, [];
      if group == "" || actor == "" || target == "" || store.state.creators == [] {
        return;
      }
      WarExpiryChangesNoRole(store.state, group, w.now);
      var war, active := WarActive(group, w.now);
      if target in store.state.bots {
        var free := !w.duplicate && w.selected && !w.completed;
        if free && actor !in store.state.bots && self != target && self in primaries {
          FastBotDefenseKick(self, group, actor, w);
        }
        return;
      }
      if !w.duplicate {
        SameRolesRemoveAlike(old(store.state), store.state, group, actor, target, war);
        agent, tried := HandleUserKick(group, actor, target, self, war, w);
      }
    }

    /** The part of it for a target that is no bot. */
    method HandleUserKick(group: Gid, actor: Mid, target: Mid, self: Mid, war: War, w: World)
      returns (ghost agent: Mid, ghost tried: seq<Mid>)
      requires Valid()
      modifies this`members, this`trace, health, store
      ensures Valid()
      ensures var s, scene := old(store.state), old(View(w.now));
        var ejects := HasProtector(scene, group, target, self) && RemovesKicker(s, group, actor, target, war);
        var restores := HasProtector(scene, group, target, self) && RestoresTarget(s, group, actor, target);
        && store.state == (if ejects then Apply(s, AutoBlacklist(group, actor)) else s)
        && (ejects ==> tried != [] && tried[0] == agent && Ejection(scene, group, target, self, w.answers, tried))
        && (restores ==> Protects(scene, group, target, self, agent))
        && trace == old(trace) + (if ejects then Tries(tried, group, actor, store.state, w.answers) else [])
             + Reinvites(restores, agent, group, target, store.state, w.invites(agent))
    {
      hide Inv, AllSafe, SafeTarget, RoleOf, Tries, HasProtector, TriedInOrder, Protects, Apply, View;
      agent, tried := self, [];
      var protector := ProtectorFor(group, target, self, w.now);
      var targetRole, actorRole := RoleOf(store.state, group, target), RoleOf(store.state, group, actor);
      if targetRole.Rank() >= Owner.Rank() {
        if actorRole == Creator || actor in store.state.bots || protector.None? {
          return;
        }
        agent := protector.value;
        if actorRole == User && ProtectionOf(store.state, group).kick {
          UserIsSafe(store.state, group, actor);
          var _, all := EjectAndBlacklist(protector.value, group, actor, w);
          tried := all;
        }
        var _ := Act(Invite, protector.value, group, [target], w.invites(protector.value), w.now, Automatic);
        return;
      }
      if actor in store.state.bots || CanKick(store.state, group, actor, target) || actorRole != User
        || (!ProtectionOf(store.state, group).kick && !(war.enabled && war.level >= 2)) || protector.None? {
        return;
      }
      UserIsSafe(store.state, group, actor);
      agent := protector.value;
      var _, all := EjectAndBlacklist(protector.value, group, actor, w);
      tried := all;
    }

    /** Bot defence asks no membership of the server: its own record must do. */
    method FastBotDefenseKick(self: Mid, group: Gid, actor: Mid, w: World)
      requires Valid() && actor !in store.state.bots
      modifies this`trace, health, store
      ensures Valid()
      ensures store.state == if (group, self) in members
                             then Apply(old(store.state), AutoBlacklist(group, actor)) else old(store.state)
      ensures trace == old(trace) +
        if (group, self) in members then [Emission(Kick, self, group, [actor], BotDefence, store.state)] else []
    {
      hide Inv, AllSafe;
      if (group, self) !in members {
        return;
      }
      BlacklistingChangesNoRole(store.state, group, actor);
      var _ := store.AutoBlacklist(group, actor, w.saved);
      trace := trace + [Emission(Kick, self, group, [actor], BotDefence, store.state)];
      SafeSnoc(old(trace), trace[|old(trace)|]);
      var outcome := if w.answers(self).Granted? then Health.Done else Health.Failed;
      health.Record(Health.Report(self, Health.Kick, outcome, w.now));
    }

    predicate Defends(group: Gid, actor: Mid, target: Mid, self: Mid, w: World)
      reads this, store
    {
      var s := store.state;
      && group != "" && actor != "" && target != "" && s.creators != []
      && target in s.bots && !w.duplicate && actor !in s.bots
      && self != target && self in primaries && w.selected && !w.completed && (group, self) in members
    }

    predicate EjectsKicker(group: Gid, actor: Mid, target: Mid, self: Mid, w: World)
      reads this, store, health
    {
      var s := store.state;
      && group != "" && actor != "" && target != "" && s.creators != []
      && target !in s.bots && !w.duplicate && HasProtector(View(w.now), group, target, self)
      && RemovesKicker(s, group, actor, target, WarSeen(s, group, w.now))
    }

    predicate RestoresKicked(group: Gid, actor: Mid, target: Mid, self: Mid, w: World)
      reads this, store, health
    {
      var s := store.state;
      && group != "" && actor != "" && target != "" && s.creators != []
      && target !in s.bots && !w.duplicate && HasProtector(View(w.now), group, target, self)
      && RestoresTarget(s, group, actor, target)
    }

    /** Somebody withdrew invitations: a plain user who did is ejected under cancel protection or war. */
    method HandleCancellation(group: Gid, actor: Mid, target: string, targets: seq<Mid>, self: Mid, w: World)
      returns (ghost tried: seq<Mid>)
      requires Valid()
      modifies this`served, this`members, this`trace, health, store
      ensures served == old(served) + [Operation(126, group, actor, target, targets)]
      ensures Valid()
      ensures var s := old(store.state);
        var gone := set m | m in targets && m in primaries :: (group, m);
        var scene := old(View(w.now)).(members := old(members) - gone);
        var ejects := group != "" && actor != "" && target != "" && !w.duplicate
          && RemovesCanceller(s, group, actor, WarSeen(s, group, w.now)) && HasProtector(scene, group, target, self);
        && store.state == (if ejects then Apply(AfterWar(s, group, w.now), AutoBlacklist(group, actor))
          else AfterWar(s, group, w.now))
        && (ejects ==> Ejection(scene, group, target, self, w.answers, tried))
        && trace == old(trace) + if ejects then Tries(tried, group, actor, store.state, w.answers) else []
    {
      served := served + [Operation(126, group, actor, target, targets)];
      hide Inv, AllSafe, SafeTarget, AfterWar, WarSeen, RoleOf, Tries, HasProtector, TriedInOrder, Protects, Apply;
      tried := [];
      WarExpiryChangesNoRole(store.state, group, w.now);
      var war, active := WarActive(group, w.now);
      if group == "" || actor == "" || target == "" || w.duplicate {
        return;
      }
      ForgetMembers(group, targets);
      if !ProtectionOf(store.state, group).cancel && !active {
        return;
      }
      if actor in store.state.bots || RoleOf(store.state, group, actor) != User {
        return;
      }
      var protector := ProtectorFor(group, target, self, w.now);
      if protector.Some? && actor !in store.state.bots {
        UserIsSafe(store.state, group, actor);
        var _, all := EjectAndBlacklist(protector.value, group, actor, w);
        tried := all;
      }
    }

    method ForgetMembers(group: Gid, targets: seq<Mid>)
      modifies this`members
      ensures members == old(members) - (set m | m in targets && m in primaries :: (group, m))
    {
      for i := 0 to |targets|
        invariant members == old(members) - (set m | m in targets[..i] && m in primaries :: (group, m))
      {
        assert targets[..i + 1] == targets[..i] + [targets[i]];
        if targets[i] in primaries {
          members := members - {(group, targets[i])};
        }
      }
      assert targets[..|targets|] == targets;
    }

    /** Somebody opened the group's ticket: it is closed again and a plain user who did is ejected. */
    method HandleChatUpdate(group: Gid, actor: Mid, attribute: string, self: Mid, w: World)
      returns (ghost tried: seq<Mid>)
      requires Valid()
      modifies this`served, this`members, this`trace, health, store
      ensures served == old(served) + [Operation(122, group, actor, attribute, [])]
      ensures Valid()
      ensures var s, scene := old(store.state), old(View(w.now));
        var ejects := group != "" && actor != "" && attribute == "4" && !w.duplicate && w.closes
          && RemovesOpener(s, group, actor, WarSeen(s, group, w.now)) && HasProtector(scene, group, "", self);
        && store.state == (if ejects then Apply(AfterWar(s, group, w.now), AutoBlacklist(group, actor))
          else AfterWar(s, group, w.now))
        && (ejects ==> Ejection(scene, group, "", self, w.answers, tried))
        && trace == old(trace) + if ejects then Tries(tried, group, actor, store.state, w.answers) else []
    {
      served := served + [Operation(122, group, actor, attribute, [])];
      hide Inv, AllSafe, SafeTarget, AfterWar, WarSeen, RoleOf, Tries, HasProtector, TriedInOrder, Protects, Apply;
      tried := [];
      WarExpiryChangesNoRole(store.state, group, w.now);
      var war, active := WarActive(group, w.now);
      if group == "" || actor == "" || attribute != "4"
        || (!ProtectionOf(store.state, group).qr && !active && !war.locked) || w.duplicate {
        return;
      }
      if actor in store.state.bots || RoleOf(store.state, group, actor) != User {
        return;
      }
      var protector := ProtectorFor(group, "", self, w.now);
      if protector.None? || !w.closes {
        return;
      }
      UserIsSafe(store.state, group, actor);
      var _, all := EjectAndBlacklist(protector.value, group, actor, w);
      tried := all;
    }

    /** An invitation: accepted when it is for this bot; otherwise judged, and what it may not do undone. */
    method HandleInvitation(group: Gid, inviter: Mid, invited: seq<Mid>, self: Mid, w: World)
      returns (ghost agent: Mid, ghost tried: seq<Mid>)
      requires Valid()
      modifies this`served, this`members, this`trace, health, store
      ensures served == old(served) + [Operation(124, group, inviter, "", invited)]
      ensures Valid()
      ensures var s := old(store.state);
        var t := AfterWar(s, group, w.now);
        store.state ==
          if self in invited then (if old(Waits(group, self)) then s else Apply(s, BootstrapCreator(inviter)))
          else if s.creators == [] || w.duplicate then s
          else if old(EjectsInviter(group, inviter, invited, self, w)) then Apply(t, AutoBlacklist(group, inviter))
            else t
      ensures old(Judges(group, invited, self, w)) ==> Protects(old(View(w.now)), group, "", self, agent)
      ensures old(EjectsInviter(group, inviter, invited, self, w)) ==>
        tried != [] && tried[0] == agent && TriedInOrder(old(View(w.now)), group, w.answers, tried)
      ensures trace == old(trace)
        + (if old(Judges(group, invited, self, w))
           then Cancels(AfterWar(old(store.state), group, w.now), agent, group, inviter, invited, w.cancels(agent))
             else [])
        + (if old(EjectsInviter(group, inviter, invited, self, w))
          then Tries(tried, group, inviter, store.state, w.answers) else [])
    {
      served := served + [Operation(124, group, inviter, "", invited)];
      hide Inv, AllSafe, SafeTarget, AfterWar, WarSeen, RoleOf, CanKick, Tries, HasProtector, TriedInOrder, Protects;
      hide Cancels, MayInvite;
      agent, tried := self, [];
      if self in invited {
        if !(self in RoomOf(store.state, group).reserves && exists m :: m in primaries && (group, m) in members) {
          AcceptInvitation(group, inviter, self, w);
        }
        return;
      }
      if store.state.creators == [] || w.duplicate {
        return;
      }
      WarExpiryChangesNoRole(store.state, group, w.now);
      SameRolesJudgeAlike(store.state, AfterWar(store.state, group, w.now), group, inviter, invited);
      var war, active := WarActive(group, w.now);
      if !ProtectionOf(store.state, group).invite && !active && !war.locked {
        return;
      }
      agent, tried := JudgeInvitation(group, inviter, invited, self, w);
    }

    /** A reserve stays outside while a primary bot is inside. */
    predicate Waits(group: Gid, self: Mid)
      reads this, store
    {
      self in RoomOf(store.state, group).reserves && exists m :: m in primaries && (group, m) in members
    }

    method AcceptInvitation(group: Gid, inviter: Mid, self: Mid, w: World)
      requires Valid()
      modifies this`members, store
      ensures Valid() && store.state == Apply(old(store.state), BootstrapCreator(inviter))
    {
      hide Inv;
      var created, ok := store.BootstrapCreator(inviter, w.saved);
      if ok && w.accepted {
        members := members + {(group, self)};
      }
    }

    method JudgeInvitation(group: Gid, inviter: Mid, invited: seq<Mid>, self: Mid, w: World)
      returns (ghost agent: Mid, ghost tried: seq<Mid>)
      requires Valid()
      modifies this`members, this`trace, health, store
      ensures Valid()
      ensures var s, scene := old(store.state), old(View(w.now));
        var acts := HasProtector(scene, group, "", self);
        var ejects := acts && !MayInvite(s, group, inviter, invited) && CanKick(s, group, FirstCreator(s), inviter);
        && store.state == (if ejects then Apply(s, AutoBlacklist(group, inviter)) else s)
        && (acts ==> Protects(scene, group, "", self, agent))
        && (ejects ==> tried != [] && tried[0] == agent && TriedInOrder(scene, group, w.answers, tried))
        && trace == old(trace) + (if acts then Cancels(s, agent, group, inviter, invited, w.cancels(agent)) else [])
             + (if ejects then Tries(tried, group, inviter, store.state, w.answers) else [])
    {
      hide Inv, AllSafe, SafeTarget, RoleOf, CanKick, FirstCreator, Tries, HasProtector, TriedInOrder, Protects;
      hide MayInvite, OneReport, Apply;
      agent, tried := self, [];
      ghost var scene := View(w.now);
      var protector := ProtectorFor(group, "", self, w.now);
      if MayInvite(store.state, group, inviter, invited) {
        var blocked := Blocked(store.state.blacklist, invited);
        if protector.Some? {
          agent := protector.value;
          if blocked != [] {
            var _ := Act(Cancel, protector.value, group, blocked, w.cancels(protector.value), w.now, Automatic);
          }
        }
        return;
      }
      if protector.None? {
        return;
      }
      agent := protector.value;
      var _ := Act(Cancel, protector.value, group, invited, w.cancels(protector.value), w.now, Automatic);
      ghost var cancelled := View(w.now);
      if CanKick(store.state, group, FirstCreator(store.state), inviter) {
        InviterIsSafe(store.state, group, inviter, invited);
        var _, all := EjectAndBlacklist(protector.value, group, inviter, w);
        tried := all;
        TriedUnmoved(scene, cancelled, group, w.cancels(protector.value), w.answers, tried);
      }
    }

    /** Whether the invitation is looked into and there is a bot to act with. */
    predicate Judges(group: Gid, invited: seq<Mid>, self: Mid, w: World)
      reads this, store, health
    {
      var s := store.state;
      var war := WarSeen(s, group, w.now);
      && self !in invited && s.creators != [] && !w.duplicate && HasProtector(View(w.now), group, "", self)
      && (ProtectionOf(s, group).invite || war.enabled || war.locked)
    }

    predicate EjectsInviter(group: Gid, inviter: Mid, invited: seq<Mid>, self: Mid, w: World)
      reads this, store, health
    {
      Judges(group, invited, self, w)
        && RemovesInviter(store.state, group, inviter, invited, WarSeen(store.state, group, w.now))
    }

    // ---- Messages and commands

    /** The second offence under one key within a minute is answered with a kick, the first with a warning. */
    method WarnOrRemove(key: string, group: Gid, actor: Mid, self: Mid, w: World)
      requires Valid() && SafeTarget(store.state, group, Automatic, actor)
      modifies this`members, this`trace, this`warned, health
      ensures Valid() && warned == old(warned)[key := w.now]
      ensures trace == old(trace) +
        if old(Repeats(key, w.now)) && Sent(w.answers(self))
          then [Emission(Kick, self, group, [actor], Automatic, store.state)] else []
    {
      hide SafeTarget, AllSafe;
      var again := key in warned && w.now - warned[key] < 60 * Health.SECOND;
      warned := warned[key := w.now];
      if again {
        var _ := Act(Kick, self, group, [actor], w.answers(self), w.now, Automatic);
      }
    }

    predicate Repeats(key: string, now: int)
      reads this`warned
    {
      key in warned && now - warned[key] < 60 * Health.SECOND
    }

    /** A message from a group: only a plain user's can have consequences before it is read as a command. */
    method HandleAbuse(group: Gid, from: Mid, allMention: bool, flooded: bool, self: Mid, w: World)
      requires Valid()
      modifies this`served, this`members, this`trace, this`warned, health
      ensures served == old(served) + [Message(group, from, allMention, flooded)]
      ensures Valid()
      ensures var s := store.state;
        var abuses := group != "" && from != "" && s.creators != [] && IsUser(s, group, from) && !w.duplicate;
        var all := abuses && ProtectionOf(s, group).all && allMention;
        var flood := abuses && !(ProtectionOf(s, group).all && allMention) && ProtectionOf(s, group).flood && flooded;
        var key := if all then AllKey(group, from) else FloodKey(group, from);
        trace == old(trace) + if (all || flood) && old(Repeats(key, w.now)) && Sent(w.answers(self))
                              then [Emission(Kick, self, group, [from], Automatic, s)] else []
    {
      served := served + [Message(group, from, allMention, flooded)];
      hide SafeTarget, AllSafe, AllKey, FloodKey;
      if group == "" || from == "" || store.state.creators == [] {
        return;
      }
      if from in store.state.bots || RoleOf(store.state, group, from) != User || w.duplicate {
        return;
      }
      UserIsSafe(store.state, group, from);
      var protection := ProtectionOf(store.state, group);
      if protection.all && allMention {
        WarnOrRemove(AllKey(group, from), group, from, self, w);
      } else if protection.flood && flooded {
        WarnOrRemove(FloodKey(group, from), group, from, self, w);
      }
    }

    /** A message with the flood filter of its group and author: the filter counts it only where it gets
        that far, and what it answers is what the rule above goes by. */
    method HandleMessage(
        group: Gid, from: Mid, allMention: bool, filter: Filters.FloodFilter, self: Mid, w: World)
      requires Valid() && filter.Valid() && filter.clock <= w.now
      modifies this`members, this`trace, this`warned, this`served, health, filter, filter.events
      ensures Valid() && filter.Valid() && filter.clock <= w.now
      ensures var s, full := store.state, old(filter.history) + [w.now];
        var heard := group != "" && from != "" && s.creators != [] && IsUser(s, group, from) && !w.duplicate;
        var all := heard && ProtectionOf(s, group).all && allMention;
        var counted := heard && !all && ProtectionOf(s, group).flood;
        var flood := counted && |Filters.Recent(full, w.now)| >= 8;
        var key := if all then AllKey(group, from) else FloodKey(group, from);
        && filter.history == (if flood then [] else if counted then full else old(filter.history))
        && trace == old(trace) + if (all || flood) && old(Repeats(key, w.now)) && Sent(w.answers(self))
                                 then [Emission(Kick, self, group, [from], Automatic, s)] else []
    {
      hide SafeTarget, AllSafe, AllKey, FloodKey, Filters.Recent, Filters.FloodFilter.Valid;
      var protection := ProtectionOf(store.state, group);
      var flooded := false;
      if group != "" && from != "" && store.state.creators != [] && IsUser(store.state, group, from) && !w.duplicate
         && !(protection.all && allMention) && protection.flood
      {
        flooded := filter.Message(w.now);
      }
      HandleAbuse(group, from, allMention, flooded, self, w);
    }

    /** `blacklist` with a target: recorded first, then kicked if the actor may kick it. */
    method CommandBlacklist(group: Gid, actor: Mid, target: Mid, self: Mid, w: World)
      requires Valid()
      modifies this`served, this`members, this`trace, health, store
      ensures served == old(served) + [Blacklist(group, actor, target)]
      ensures Valid() && store.state == Apply(old(store.state), AddBlacklist(group, actor, target))
      ensures trace == old(trace) +
        if old(BlacklistKicks(store.state, group, actor, target)) && w.saved && Sent(w.answers(self))
        then [Emission(Kick, self, group, [target], BlacklistCommand, store.state)] else []
    {
      served := served + [Blacklist(group, actor, target)];
      hide Inv, AllSafe, RoleOf, CanKick, Allowed;
      BlacklistingByCommand(store.state, group, actor, target);
      var ok := store.AddBlacklist(group, actor, target, w.saved);
      if !ok {
        return;
      }
      if CanKick(store.state, group, actor, target) {
        var _ := Act(Kick, self, group, [target], w.answers(self), w.now, BlacklistCommand);
      }
    }

    /** `kick` names plain users only, whoever asks. */
    method CommandKick(group: Gid, actor: Mid, target: Mid, self: Mid, w: World) returns (refused: bool)
      requires Valid()
      modifies this`served, this`members, this`trace, health
      ensures served == old(served) + [KickOne(group, actor, target)]
      ensures Valid()
      ensures refused <==> (target == "" || !IsUser(store.state, group, target)
                            || RoleOf(store.state, group, actor) == User || actor == target)
      ensures trace == old(trace) +
        if !refused && Sent(w.answers(self))
        then [Emission(Kick, self, group, [target], KickCommand, store.state)] else []
    {
      served := served + [KickOne(group, actor, target)];
      hide AllSafe, SafeTarget;
      if target == "" || target in store.state.bots || RoleOf(store.state, group, target) != User {
        return true;
      }
      if RoleOf(store.state, group, actor).Rank() < GAdmin.Rank() || actor == target {
        return true;
      }
      UserIsSafe(store.state, group, target);
      var _ := Act(Kick, self, group, [target], w.answers(self), w.now, KickCommand);
      return false;
    }

    /** `kickall`: every plain user among the members, shuffled and dealt to the ranked bots in batches;
        the `k`-th batch comes to `w.batches(k)`. */
    method CommandKickAll(group: Gid, actor: Mid, self: Mid, w: World)
      returns (removed: nat, failed: nat, refused: bool, ghost workers: seq<Mid>)
      requires Valid() && Fair(w)
      modifies this`served, this`members, this`trace, health
      ensures served == old(served) + [KickEveryone(group, actor)]
      ensures Valid()
      ensures refused <==> RoleOf(store.state, group, actor).Rank() < Admin.Rank() || w.roster.None?
      ensures refused ==> trace == old(trace)
      ensures !refused ==>
        var targets := PlainUsers(store.state, group, w.roster.value);
        && workers != [] && Health.Ranks(old(health.bots), w.now, Workers(clients, w.roster.value, self), workers)
        && trace == old(trace)
             + JobEmissions(store.state, group, KickAll.Schedule(workers, w.shuffle(targets)), w.batches)
        && removed + failed == |targets|
    {
      served := served + [KickEveryone(group, actor)];
      hide AllSafe, SafeTarget, KickAll.Schedule, KickAll.Removed, KickAll.BatchCount, Health.Ranked, Health.Best;
      hide Health.Usable;
      removed, failed, refused, workers := 0, 0, true, [];
      if RoleOf(store.state, group, actor).Rank() < Admin.Rank() || w.roster.None? {
        return;
      }
      refused := false;
      var targets := w.shuffle(PlainUsers(store.state, group, w.roster.value));
      PlainUsersArePlain(store.state, group, w.roster.value);
      SameMultiset(targets, PlainUsers(store.state, group, w.roster.value));
      var usable := set m | m in clients && m in w.roster.value;
      if usable == {} {
        usable := {self};
      }
      var listed := Enumerate(usable);
      Health.RankedRanks(health.bots, w.now, usable, listed);
      var ranked := health.Rank(listed, w.now);
      workers := ranked;
      var jobs;
      removed, failed, jobs := KickAll.KickAllTargets(ranked, targets, (k: nat) => w.batches(k).Granted?);
      forall i | 0 <= i < |jobs|
        ensures SafeJob(store.state, group, jobs[i])
      {
        PlainJob(store.state, group, w.roster.value, ranked, targets, i);
      }
      SendJobs(group, jobs, w.batches, w.now);
    }

    method SendJobs(group: Gid, jobs: seq<KickAll.Job>, answers: nat -> Answer, now: int)
      requires Valid() && forall i | 0 <= i < |jobs| :: SafeJob(store.state, group, jobs[i])
      modifies this`members, this`trace, health
      ensures Valid() && trace == old(trace) + JobEmissions(store.state, group, jobs, answers)
    {
      hide SafeTarget, AllSafe;
      for i := 0 to |jobs|
        invariant Valid() && trace == old(trace) + JobEmissions(store.state, group, jobs[..i], answers)
      {
        assert jobs[..i + 1][..i] == jobs[..i];
        assert SafeJob(store.state, group, jobs[i]);
        var _ := Act(Kick, jobs[i].worker, group, jobs[i].targets, answers(i), now, KickCommand);
      }
      assert jobs[..|jobs|] == jobs;
    }

    // ---- Sweeps

    /** Kicks the blacklisted among some members, one request each; `answers` is by target. */
    method Sweep(bot: Mid, group: Gid, mids: seq<Mid>, answers: Mid -> Answer, now: int)
      requires Valid()
      modifies this`members, this`trace, health
      ensures Valid() && trace == old(trace) + SweepEmissions(store.state, bot, group, mids, answers)
    {
      hide Inv, AllSafe, SafeTarget;
      for i := 0 to |mids|
        invariant Valid() && trace == old(trace) + SweepEmissions(store.state, bot, group, mids[..i], answers)
      {
        assert mids[..i + 1][..i] == mids[..i];
        if mids[i] in store.state.blacklist {
          BlacklistedIsSafe(store.state, group, mids[i]);
          var _ := Act(Kick, bot, group, [mids[i]], answers(mids[i]), now, Automatic);
        }
      }
      assert mids[..|mids|] == mids;
    }

    /** Reserves join; the first that does sweeps the group. */
    method LaunchRecovery(group: Gid, w: World) returns (rescuer: Option<Mid>)
      requires Valid()
      modifies this`served, this`members, this`trace, health
      ensures served == old(served) + [Recovery(group)]
      ensures Valid()
      ensures var room := RoomOf(store.state, group);
        rescuer == if room.standbyCount == 0 || w.duplicate then None else FirstToJoin(room.reserves, clients, w.joins)
      ensures trace == old(trace) +
        if rescuer.Some? && w.roster.Some?
          then SweepEmissions(store.state, rescuer.value, group, w.roster.value, w.replies) else []
    {
      served := served + [Recovery(group)];
      hide Inv, AllSafe, SweepEmissions;
      rescuer := None;
      var room := RoomOf(store.state, group);
      if room.standbyCount == 0 || room.reserves == [] || w.duplicate {
        return;
      }
      assert room.reserves[0..] == room.reserves;
      for i := 0 to |room.reserves|
        invariant Valid() && trace == old(trace) && served == old(served) + [Recovery(group)]
        invariant FirstToJoin(room.reserves, clients, w.joins)
          == if rescuer.Some? then rescuer else FirstToJoin(room.reserves[i..], clients, w.joins)
      {
        assert room.reserves[i..][1..] == room.reserves[i + 1..];
        var reserve := room.reserves[i];
        if reserve in clients && w.joins(reserve) {
          members := members + {(group, reserve)};
          if rescuer.None? {
            rescuer := Some(reserve);
          }
        }
      }
      if rescuer.Some? && w.roster.Some? {
        Sweep(rescuer.value, group, w.roster.value, w.replies, w.now);
      }
    }

    /** At startup, for one group the bots can see: the best bot inside, or failing any a reserve that
        gets in, sweeps the members. */
    method ReconcileGroup(group: Gid, memberList: seq<Mid>, viewers: seq<Mid>, w: World)
      returns (leader: Option<Mid>)
      requires Valid()
      modifies this`served, this`members, this`trace, health
      ensures served == old(served) + [Startup(group, memberList, viewers)]
      ensures Valid()
      ensures var inside := set m | m in clients && m in memberList;
        var reserves := RoomOf(store.state, group).reserves;
        var admitted := set m | m in viewers && m in reserves && m !in memberList && w.joins(m);
        var active := if inside != {} then inside else admitted;
        && (leader.Some? <==> active != {})
        && (leader.Some? ==> Health.Best(old(health.bots), w.now, active, leader.value))
      ensures trace == old(trace) +
        if leader.Some? then SweepEmissions(store.state, leader.value, group, memberList, w.replies) else []
    {
      served := served + [Startup(group, memberList, viewers)];
      hide Inv, AllSafe, SweepEmissions, Health.Ranked, Health.Best, Health.Ranks;
      var active := set m | m in clients && m in memberList;
      if active == {} {
        active := AdmitReserves(group, memberList, viewers, w.joins);
      }
      if active == {} {
        return None;
      }
      var listed := Enumerate(active);
      var ranked := health.Rank(listed, w.now);
      Health.RankedRanks(health.bots, w.now, active, listed);
      leader := Some(ranked[0]);
      Sweep(ranked[0], group, memberList, w.replies, w.now);
    }

    /** Which reserves got in; they count as members from then on. */
    method AdmitReserves(group: Gid, memberList: seq<Mid>, viewers: seq<Mid>, joins: Mid -> bool)
      returns (active: set<Mid>)
      requires Valid()
      modifies this`members
      ensures active == set m | m in viewers && m in RoomOf(store.state, group).reserves && m !in memberList && joins(m)
    {
      var reserves := RoomOf(store.state, group).reserves;
      active := {};
      for i := 0 to |viewers|
        invariant active == set m | m in viewers[..i] && m in reserves && m !in memberList && joins(m)
      {
        assert viewers[..i + 1] == viewers[..i] + [viewers[i]];
        if viewers[i] in reserves && viewers[i] !in memberList && joins(viewers[i]) {
          members := members + {(group, viewers[i])};
          active := active + {viewers[i]};
        }
      }
      assert viewers[..|viewers|] == viewers;
    }

    // ---- Whole runs

    /** What every event does first: the bot that received it is registered, and joins and kicks of bots
        are noted. */
    method Observe(kind: int, group: Gid, joined: Mid, target: Mid, self: Mid, w: World) returns (registered: bool)
      requires Valid()
      modifies this`members, store
      ensures Valid() && store.state == Apply(old(store.state), RegisterBot(self))
      ensures registered <==> self == "" || self in old(store.state).bots || w.saved
      ensures members ==
        if registered && kind == 60 && joined in store.state.bots then old(members) + {(group, joined)}
        else if registered && kind == 133 && target in store.state.bots then old(members) - {(group, target)}
        else old(members)
    {
      hide Inv;
      registered := store.RegisterBot(self, w.saved);
      if registered && kind == 60 && joined in store.state.bots {
        members := members + {(group, joined)};
      } else if registered && kind == 133 && target in store.state.bots {
        members := members - {(group, target)};
      }
    }

    /** A bot comes online: registered for good, and from now on one to act with. */
    method Connect(client: Mid, reserve: bool, w: World)
      requires Valid()
      modifies this`served, this`clients, this`primaries, health, store
      ensures served == old(served) + [Event.Connect(client, reserve)]
      ensures Valid() && store.state == Apply(old(store.state), RegisterBot(client))
      ensures var ok := client == "" || client in old(store.state).bots || w.saved;
        && clients == (if ok then old(clients) + {client} else old(clients))
        && primaries == (if !ok then old(primaries)
                         else if reserve then old(primaries) - {client} else old(primaries) + {client})
    {
      served := served + [Event.Connect(client, reserve)];
      hide Inv;
      var ok := store.RegisterBot(client, w.saved);
      if !ok {
        return;
      }
      clients := clients + {client};
      health.Register(client);
      if reserve {
        primaries := primaries - {client};
      } else {
        primaries := primaries + {client};
      }
    }

    /** The quarantines of the other groups. */
    function Elsewhere(group: Gid): map<(Gid, Mid), int>
      reads this
    {
      map k | k in quarantine && k.0 != group :: quarantine[k]
    }

    /** `war on`: for an Owner and a duration of 30 seconds to a day; the group's quarantines are forgotten. */
    method StartWar(group: Gid, actor: Mid, duration: int, w: World)
      requires Valid()
      modifies this`served, this`quarantine, store
      ensures served == old(served) + [Event.StartWar(group, actor, duration)]
      ensures Valid()
      ensures var s, declared := old(store.state), Declared(actor, duration, w.now);
        var proper := 30 * Health.SECOND <= duration <= 86400 * Health.SECOND;
        && store.state == (if proper then Apply(s, UpdateWar(group, actor, declared)) else s)
        && quarantine == (if proper && RoleOf(s, group, actor).Rank() >= Owner.Rank() && w.saved
                          then old(Elsewhere(group)) else old(quarantine))
    {
      served := served + [Event.StartWar(group, actor, duration)];
      hide Inv, RoleOf;
      if duration < 30 * Health.SECOND || duration > 86400 * Health.SECOND {
        return;
      }
      var ok := store.UpdateWar(group, actor, Declared(actor, duration, w.now), w.saved);
      if ok {
        quarantine := Elsewhere(group);
      }
    }

    /** War coming on by itself; likewise. */
    method AutoWar(group: Gid, until: int, reason: string, w: World)
      requires Valid()
      modifies this`served, this`quarantine, store
      ensures served == old(served) + [Event.AutoWar(group, until, reason)]
      ensures Valid()
      ensures var s := old(store.state);
        var starts := WarOf(s, group).auto && !WarOf(s, group).enabled;
        && store.state == (if starts then Apply(s, ActivateWarAuto(group, until, reason)) else s)
        && quarantine == (if starts && w.saved then old(Elsewhere(group)) else old(quarantine))
    {
      served := served + [Event.AutoWar(group, until, reason)];
      hide Inv;
      var war := WarOf(store.state, group);
      if !war.auto || war.enabled {
        return;
      }
      var ok := store.ActivateWarAuto(group, until, reason, w.saved);
      if ok {
        quarantine := Elsewhere(group);
      }
    }

    /** `war quarantine`, for an Owner: ten minutes from now. */
    method PutInQuarantine(group: Gid, actor: Mid, target: Mid, now: int)
      modifies this`served, this`quarantine
      ensures served == old(served) + [Quarantine(group, actor, target)]
      ensures quarantine ==
        if RoleOf(store.state, group, actor).Rank() >= Owner.Rank() && target != ""
        then old(quarantine)[(group, target) := now + 600 * Health.SECOND] else old(quarantine)
    {
      served := served + [Quarantine(group, actor, target)];
      if RoleOf(store.state, group, actor).Rank() >= Owner.Rank() && target != "" {
        quarantine := quarantine[(group, target) := now + 600 * Health.SECOND];
      }
    }

    /** `war pardon`, for an Owner. */
    method Pardon(group: Gid, actor: Mid, target: Mid)
      modifies this`served, this`quarantine
      ensures served == old(served) + [Event.Pardon(group, actor, target)]
      ensures quarantine ==
        if RoleOf(store.state, group, actor).Rank() >= Owner.Rank() && target != ""
        then old(quarantine) - {(group, target)} else old(quarantine)
    {
      served := served + [Event.Pardon(group, actor, target)];
      if RoleOf(store.state, group, actor).Rank() >= Owner.Rank() && target != "" {
        quarantine := quarantine - {(group, target)};
      }
    }

    /** `war clear`, for an Owner. */
    method ClearWar(group: Gid, actor: Mid)
      modifies this`served, this`quarantine
      ensures served == old(served) + [Event.ClearWar(group, actor)]
      ensures quarantine ==
        if RoleOf(store.state, group, actor).Rank() >= Owner.Rank() then old(Elsewhere(group)) else old(quarantine)
    {
      served := served + [Event.ClearWar(group, actor)];
      if RoleOf(store.state, group, actor).Rank() >= Owner.Rank() {
        quarantine := Elsewhere(group);
      }
    }

    /** Any store command; the store's own methods leave exactly this state. */
    method ChangeStore(command: Command)
      requires Valid()
      modifies this`served, store
      ensures served == old(served) + [Change(command)]
      ensures Valid() && store.state == Apply(old(store.state), command)
    {
      served := served + [Change(command)];
      StepKeepsInv(store.state, command);
      hide Inv;
      store.state := Apply(store.state, command);
    }

    /** The event that the handler of this kind of operation answers. */
    function Answering(kind: int, p1: Gid, p2: Mid, p3: Mid, mids: seq<Mid>): Event {
      if kind == 124 then Operation(124, p1, p2, "", mids)
      else Operation(kind, p1, p2, p3, if kind == 126 then mids else [])
    }

    lemma AnsweringIs(kind: int, p1: Gid, p2: Mid, p3: Mid, mids: seq<Mid>)
      ensures Answering(kind, p1, p2, p3, mids)
           == if kind == 124 then Operation(124, p1, p2, "", mids)
              else Operation(kind, p1, p2, p3, if kind == 126 then mids else [])
    {}

    function Answered(event: Event): seq<Event> {
      match event
      case Operation(kind, p1, p2, p3, mids) =>
        if kind in {60, 122, 124, 126, 133} then [Answering(kind, p1, p2, p3, mids)] else []
      case _ => [event]
    }

    function AllAnswered(events: seq<Event>): seq<Event> {
      if events == [] then [] else AllAnswered(events[..|events| - 1]) + Answered(events[|events| - 1])
    }

    method Operate(kind: int, p1: Gid, p2: Mid, p3: Mid, mids: seq<Mid>, self: Mid, w: World)
      requires Valid() && Fair(w)
      modifies this`members, this`trace, this`served, health, store
      ensures Valid() && old(trace) <= trace
      ensures served == old(served) +
        if (self == "" || self in old(store.state).bots || w.saved) && kind in {60, 122, 124, 126, 133}
        then [Answering(kind, p1, p2, p3, mids)] else []
    {
      AnsweringIs(kind, p1, p2, p3, mids);
      hide *;
      var registered := Observe(kind, p1, if p2 == "" then p3 else p2, p3, self, w);
      if !registered {
        return;
      }
      if kind == 60 {
        HandleJoin(p1, p2, p3, self, w);
      } else if kind == 124 {
        var _, _ := HandleInvitation(p1, p2, mids, self, w);
      } else if kind == 126 {
        var _ := HandleCancellation(p1, p2, p3, mids, self, w);
      } else if kind == 122 {
        var _ := HandleChatUpdate(p1, p2, p3, self, w);
      } else if kind == 133 {
        var _, _ := HandleKick(p1, p2, p3, self, w);
      }
    }

    /** Every event reaches the handler for it, except operations of other kinds, and operations met while
        the bot that received them can be neither found nor recorded. */
    method Handle(event: Event, self: Mid, w: World)
      requires Valid() && Fair(w)
      modifies this, health, store
      ensures Valid() && old(trace) <= trace
      ensures served == old(served) +
        if event.Operation? && !(self == "" || self in old(store.state).bots || w.saved) then [] else Answered(event)
    {
      hide Inv, AllSafe, Fair, SweepEmissions, JobEmissions;
      match event
      case Connect(client, reserve) => Connect(client, reserve, w);
      case Operation(kind, p1, p2, p3, mids) => Operate(kind, p1, p2, p3, mids, self, w);
      case Message(group, from, allMention, flooded) => HandleAbuse(group, from, allMention, flooded, self, w);
      case Blacklist(group, actor, target) => CommandBlacklist(group, actor, target, self, w);
      case KickOne(group, actor, target) => var _ := CommandKick(group, actor, target, self, w);
      case KickEveryone(group, actor) => var _, _, _, _ := CommandKickAll(group, actor, self, w);
      case Recovery(group) => var _ := LaunchRecovery(group, w);
      case Startup(group, memberList, viewers) => var _ := ReconcileGroup(group, memberList, viewers, w);
      case StartWar(group, actor, duration) => StartWar(group, actor, duration, w);
      case AutoWar(group, until, reason) => AutoWar(group, until, reason, w);
      case Quarantine(group, actor, target) => PutInQuarantine(group, actor, target, w.now);
      case Pardon(group, actor, target) => Pardon(group, actor, target);
      case ClearWar(group, actor) => ClearWar(group, actor);
      case Change(command) => ChangeStore(command);
    }

    /** Over any run of events, each received by any of the bots: no kick ever sent names a bot, and
        outside bot defence and the blacklist command none names an Admin, Owner or Creator. */
    method Serve(events: seq<Event>, receivers: nat -> Mid, worlds: nat -> World)
      requires Valid() && forall k :: Fair(worlds(k))
      modifies this, health, store
      ensures Valid() && old(trace) <= trace
      ensures (forall k :: worlds(k).saved) ==> served == old(served) + AllAnswered(events)
      ensures forall e, m | e in trace && e.deed.Kick? && m in e.targets ::
        && m !in e.state.bots
        && (!e.cause.BotDefence? && !e.cause.BlacklistCommand? ==> RoleOf(e.state, e.group, m).Rank() <= GAdmin.Rank())
    {
      hide Inv, AllSafe, Fair, Answered;
      for i := 0 to |events|
        invariant Valid() && old(trace) <= trace
        invariant (forall k :: worlds(k).saved) ==> served == old(served) + AllAnswered(events[..i])
      {
        assert events[..i + 1][..i] == events[..i];
        Handle(events[i], receivers(i), worlds(i));
      }
      assert events[..|events|] == events;
      SafeSpelledOut(trace);
    }
  }
}
