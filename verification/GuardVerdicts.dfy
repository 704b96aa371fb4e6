/** When the guard removes somebody and when it does not, said of its handlers in terms of the lists, the
    switches and the war recorded for the group. */
module GuardVerdicts {
  import opened Options
  import opened Lists
  import opened GuardState
  import opened GuardRules
  import opened GuardAuthority
  import Engine
  import Health

  /** On no list of this group: no bot, no Creator, Owner or Admin, and no GAdmin here. */
  predicate NoRole(s: State, group: Gid, mid: Mid) {
    mid !in s.bots && !Privileged(s, mid) && mid !in Record(s, group).gadmins
  }

  /** The recorded war is on and not over. */
  predicate WarOn(s: State, group: Gid, now: int) {
    var war := WarRecord(s, group);
    war.enabled && (war.until <= 0 || now < war.until)
  }

  /** Its level; zero counts as two. */
  predicate WarLevel(s: State, group: Gid, level: int) {
    var war := WarRecord(s, group);
    (war.level == 0 && level <= 2) || (war.level != 0 && level <= war.level)
  }

  /** The switches as recorded, all off where nothing is. */
  function Switches(s: State, group: Gid): Protection {
    var room := Record(s, group);
    if room.protection.Some? then room.protection.value else Protection(false, false, false, false, false, false)
  }

  // ---- The rules

  lemma RolesRead(s: State, group: Gid, mid: Mid)
    requires mid != ""
    ensures IsUser(s, group, mid) <==> NoRole(s, group, mid)
    ensures RoleOf(s, group, mid) == Creator <==> mid in s.creators
    ensures RoleOf(s, group, mid).Rank() >= 3 <==> mid in s.creators || mid in s.owners
    ensures RoleOf(s, group, mid).Rank() >= 2 <==> Privileged(s, mid)
    ensures RoleOf(s, group, mid) == GAdmin <==> !Privileged(s, mid) && mid in Record(s, group).gadmins
    ensures Switches(s, group) == ProtectionOf(s, group)
  {}

  lemma WarRead(s: State, group: Gid, now: int)
    ensures var war := WarSeen(s, group, now);
      && (war.enabled <==> WarOn(s, group, now)) && (forall level :: war.level >= level <==> WarLevel(s, group, level))
      && war.locked == WarRecord(s, group).locked && war.dryRun == WarRecord(s, group).dryRun
      && war.whitelist == WarRecord(s, group).whitelist
  {}

  /** Whoever kicks somebody who is no bot is removed for it if they have no role and kick protection is
      on, or the war is, at level two or above, and the one kicked is neither Creator nor Owner. */
  lemma KickerRule(s: State, group: Gid, actor: Mid, target: Mid, now: int)
    requires actor != "" && target != ""
    ensures RemovesKicker(s, group, actor, target, WarSeen(s, group, now)) <==>
      && NoRole(s, group, actor)
      && (Switches(s, group).kick
          || (target !in s.creators && target !in s.owners && WarOn(s, group, now) && WarLevel(s, group, 2)))
    ensures RestoresTarget(s, group, actor, target) <==>
      (target in s.creators || target in s.owners) && actor !in s.creators && actor !in s.bots
  {
    RolesRead(s, group, actor);
    RolesRead(s, group, target);
    WarRead(s, group, now);
    hide RoleOf, WarSeen, WarOn, WarLevel, IsUser, NoRole, Switches, ProtectionOf;
  }

  /** Whoever cancels an invitation: no role, and cancel protection or any war. */
  lemma CancellerRule(s: State, group: Gid, actor: Mid, now: int)
    requires actor != ""
    ensures RemovesCanceller(s, group, actor, WarSeen(s, group, now)) <==>
      NoRole(s, group, actor) && (Switches(s, group).cancel || WarOn(s, group, now))
  {
    RolesRead(s, group, actor);
    WarRead(s, group, now);
    hide RoleOf, WarSeen, WarOn, WarLevel, IsUser, NoRole, Switches, ProtectionOf;
  }

  /** Whoever opens the group's link: no role, and link protection, any war, or the lock of one. */
  lemma OpenerRule(s: State, group: Gid, actor: Mid, now: int)
    requires actor != ""
    ensures RemovesOpener(s, group, actor, WarSeen(s, group, now)) <==>
      && NoRole(s, group, actor)
      && (Switches(s, group).qr || WarOn(s, group, now) || WarRecord(s, group).locked)
  {
    RolesRead(s, group, actor);
    WarRead(s, group, now);
    hide RoleOf, WarSeen, WarOn, WarLevel, IsUser, NoRole, Switches, ProtectionOf;
  }

  /** Whoever joins: the blacklisted, and in a war that is no drill those without a role that the
      whitelist does not name, at level three or above or while their quarantine lasts. */
  lemma JoinerRule(s: State, group: Gid, joined: Mid, w: World, quarantine: map<(Gid, Mid), int>)
    ensures RemovesJoiner(s, group, joined, w, quarantine) <==>
      && group != "" && joined != ""
      && ((joined in s.blacklist && !w.duplicate)
          || (WarOn(s, group, w.now) && !WarRecord(s, group).dryRun && NoRole(s, group, joined)
              && joined !in WarRecord(s, group).whitelist
              && (WarLevel(s, group, 3)
                  || ((group, joined) in quarantine && w.now < quarantine[(group, joined)]))))
  {
    if joined != "" {
      RolesRead(s, group, joined);
    }
    WarRead(s, group, w.now);
    hide RoleOf, WarSeen, WarOn, WarLevel, IsUser, NoRole;
  }

  /** Who may invite: bots, and whoever has a role, though a mere GAdmin no bot. */
  lemma InvitationRule(s: State, group: Gid, inviter: Mid, invited: seq<Mid>)
    requires inviter != ""
    ensures MayInvite(s, group, inviter, invited) <==>
      if Privileged(s, inviter) then true
      else if inviter in Record(s, group).gadmins then forall m | m in invited :: m !in s.bots
      else inviter in s.bots
  {
    RolesRead(s, group, inviter);
    hide RoleOf, Privileged;
  }

  /** The same lists in other words: who may kick whom. */
  lemma KickingRule(s: State, group: Gid, actor: Mid, target: Mid)
    requires Inv(s)
    ensures CanKick(s, group, actor, target) <==>
      && actor != target
      && if target in s.bots then actor in s.creators
         else if actor in s.creators then target !in s.creators
         else if actor in s.owners then target !in s.creators && target !in s.owners
         else if actor in s.admins then !Privileged(s, target)
         else actor in Record(s, group).gadmins && !Privileged(s, target) && target !in Record(s, group).gadmins
  {
    ListsApart(s, group, actor);
    ListsApart(s, group, target);
    hide Inv, Clean;
  }

  /** An inviter is removed under invitation protection, a war or its lock, who may not invite so. Where
      nobody is Creator yet nobody is. */
  lemma InviterRule(s: State, group: Gid, inviter: Mid, invited: seq<Mid>, now: int)
    requires Inv(s) && s.creators != [] && inviter != ""
    ensures RemovesInviter(s, group, inviter, invited, WarSeen(s, group, now)) <==>
      && (Switches(s, group).invite || WarOn(s, group, now) || WarRecord(s, group).locked)
      && !Privileged(s, inviter)
      && if inviter in Record(s, group).gadmins then exists m :: m in invited && m in s.bots
         else inviter !in s.bots
  {
    RolesRead(s, group, inviter);
    WarRead(s, group, now);
    InvitationRule(s, group, inviter, invited);
    KickingRule(s, group, FirstCreator(s), inviter);
    ListsApart(s, group, inviter);
    hide Inv, Clean, MayInvite, CanKick, RoleOf, WarSeen, WarOn, Record, ProtectionOf, Switches;
  }

  /** The blacklist command goes on to kick whom a Creator, Owner or Admin outranks, bots excepted. */
  lemma BlacklistKickRule(s: State, group: Gid, actor: Mid, target: Mid)
    requires Inv(s)
    ensures BlacklistKicks(s, group, actor, target) <==>
      && target != "" && target !in s.bots && target !in s.creators
      && (|| actor in s.creators
          || (actor in s.owners && target !in s.owners)
          || (actor in s.admins && target !in s.owners && target !in s.admins))
  {
    ListsApart(s, group, actor);
    ListsApart(s, group, target);
    KickingRule(s, group, actor, target);
    hide Inv, Clean, CanKick;
  }

  /** `war on` by a Creator or Owner: on until the declared end, but for the fraction of a millisecond. */
  lemma DeclaredWar(s: State, group: Gid, actor: Mid, duration: int, now: int, later: int)
    requires Inv(s) && (actor in s.creators || actor in s.owners) && now + duration >= 1_000_000
    ensures var t := Apply(s, UpdateWar(group, actor, Declared(actor, duration, now)));
      && (later <= now + duration - 1_000_000 ==> WarOn(t, group, later))
      && (later >= now + duration ==> !WarOn(t, group, later))
      && WarRecord(t, group).startedBy == actor && WarRecord(t, group).level == WarRecord(s, group).level
      && WarRecord(t, group).locked == WarRecord(s, group).locked
  {
    var update := Declared(actor, duration, now);
    UpdateWarChanges(s, group, actor, update, "");
    var t := Apply(s, UpdateWar(group, actor, update));
    assert Record(t, group).war.Some?;
    hide Inv, Apply;
    Milliseconds(now + duration);
  }

  lemma Milliseconds(t: int)
    requires t >= 1_000_000
    ensures 0 < t / 1_000_000 * 1_000_000 <= t < t / 1_000_000 * 1_000_000 + 1_000_000
  {}

  /** A war that is over is put out together with its lock; nothing else changes. */
  lemma WarEndRule(s: State, group: Gid, now: int)
    ensures var t := AfterWar(s, group, now);
      if WarRecord(s, group).enabled && !WarOn(s, group, now)
      then OnlyRecord(s, t, group,
                      Record(s, group).(war := Some(WarRecord(s, group).(enabled := false, locked := false))))
      else t == s
  {
    WarExpiryChanges(s, group);
    hide Apply, OnlyRecord;
  }

  // ---- The bots that act

  /** Whether this connected bot is known to be inside. */
  predicate Ready(clients: set<Mid>, members: set<(Gid, Mid)>, group: Gid, bot: Mid) {
    bot in clients && (group, bot) in members
  }

  /** Whether there is anyone to act: another bot inside, or the receiver. */
  ghost predicate HasBot(clients: set<Mid>, members: set<(Gid, Mid)>, group: Gid, excluded: Mid, self: Mid) {
    self != excluded || exists b :: Ready(clients, members, group, b) && b != excluded
  }

  /** The one to act: another bot inside, or failing any the receiver. */
  ghost predicate Acts(
      clients: set<Mid>, members: set<(Gid, Mid)>, group: Gid, excluded: Mid, self: Mid, agent: Mid)
  {
    if exists b :: Ready(clients, members, group, b) && b != excluded
    then Ready(clients, members, group, agent) && agent != excluded else agent == self
  }

  /** One of them acts first; unless it is granted the kick others
      follow, and there are others to follow unless it was the only one inside. */
  ghost predicate TriedBy(
      clients: set<Mid>, members: set<(Gid, Mid)>, group: Gid, excluded: Mid, self: Mid, answers: Mid -> Answer,
      tried: seq<Mid>)
  {
    && tried != [] && Acts(clients, members, group, excluded, self, tried[0])
    && (forall i | 0 < i < |tried| :: Ready(clients, members, group, tried[i]) && tried[i] != tried[0])
    && (answers(tried[0]).Granted? ==> |tried| == 1)
    && (!answers(tried[0]).Granted? && (exists b :: Ready(clients, members, group, b) && b != tried[0]) ==> |tried| > 1)
  }

  lemma HasBotRead(scene: Scene, group: Gid, excluded: Mid, self: Mid)
    ensures HasProtector(scene, group, excluded, self) <==> HasBot(scene.clients, scene.members, group, excluded, self)
    ensures Inside(scene, group, excluded) != {} <==>
            exists b :: Ready(scene.clients, scene.members, group, b) && b != excluded
    ensures forall b :: b in Inside(scene, group, excluded) <==>
                        Ready(scene.clients, scene.members, group, b) && b != excluded
  {
    if inside: Mid :| inside in Inside(scene, group, excluded) {
      assert Ready(scene.clients, scene.members, group, inside);
    }
    if b :| Ready(scene.clients, scene.members, group, b) && b != excluded {
      assert b in Inside(scene, group, excluded);
    }
  }

  lemma EjectionRead(
      scene: Scene, group: Gid, excluded: Mid, self: Mid, answers: Mid -> Answer, tried: seq<Mid>)
    requires Ejection(scene, group, excluded, self, answers, tried)
    ensures TriedBy(scene.clients, scene.members, group, excluded, self, answers, tried)
  {
    HasBotRead(scene, group, excluded, self);
    HasBotRead(scene, group, tried[0], self);
    if !answers(tried[0]).Granted? {
      RanksAre(scene.pool, scene.now, Inside(scene, group, tried[0]), tried[1..]);
      forall i | 0 < i < |tried|
        ensures tried[i] in Inside(scene, group, tried[0])
      {
        assert tried[i] == tried[1..][i - 1];
      }
    }
    hide Inside, Ready, Health.Ranks, Health.Less, HasBot;
  }

  lemma RanksAre(pool: Health.Pool, now: int, candidates: set<Mid>, ranked: seq<Mid>)
    requires Health.Ranks(pool, now, candidates, ranked)
    ensures forall i | 0 <= i < |ranked| :: ranked[i] in candidates
    ensures candidates != {} ==> ranked != []
  {
    forall i | 0 <= i < |ranked|
      ensures ranked[i] in candidates
    {
      assert Health.Usable(pool, now, candidates, ranked[i]);
    }
    if candidates != {} {
      if m: Mid :| m in candidates && Health.Ready(pool, now, m) {
        assert Health.Usable(pool, now, candidates, m);
      } else {
        var m: Mid :| m in candidates;
        assert Health.Usable(pool, now, candidates, m);
      }
    }
  }

  /** What a row of attempts sends: one kick by each bot that gets through to the server, as long as none
      before it was granted the kick. */
  lemma {:induction false} TriesMean(
      bots: seq<Mid>, group: Gid, actor: Mid, s: State, answers: Mid -> Answer, e: Emission)
    ensures e in Tries(bots, group, actor, s, answers) <==>
      exists i :: 0 <= i < |bots| && e == Emission(Kick, bots[i], group, [actor], Automatic, s)
        && (answers(bots[i]).Refused? || answers(bots[i]).Granted?)
        && forall j | 0 <= j < i :: !answers(bots[j]).Granted?
  {
    if bots != [] {
      var first, rest := Emission(Kick, bots[0], group, [actor], Automatic, s), bots[1..];
      TriesMean(rest, group, actor, s, answers, e);
      var sent := e in Tries(bots, group, actor, s, answers);
      TriesSplit(bots, group, actor, s, answers, e);
      hide Tries;
      if Sent(answers(bots[0])) && e == first {
        assert e == Emission(Kick, bots[0], group, [actor], Automatic, s);
      } else if sent {
        var i :| 0 <= i < |rest| && e == Emission(Kick, rest[i], group, [actor], Automatic, s) && Sent(answers(rest[i]))
                 && forall j | 0 <= j < i :: !answers(rest[j]).Granted?;
        assert bots[i + 1] == rest[i];
        assert forall j | 0 < j < i + 1 :: bots[j] == rest[j - 1];
      }
      if i :| 0 <= i < |bots| && e == Emission(Kick, bots[i], group, [actor], Automatic, s) && Sent(answers(bots[i]))
              && forall j | 0 <= j < i :: !answers(bots[j]).Granted? {
        if i > 0 {
          assert rest[i - 1] == bots[i];
          assert forall j | 0 <= j < i - 1 :: rest[j] == bots[j + 1];
        }
      }
    }
  }

  lemma TriesSplit(bots: seq<Mid>, group: Gid, actor: Mid, s: State, answers: Mid -> Answer, e: Emission)
    requires bots != []
    ensures e in Tries(bots, group, actor, s, answers) <==>
      || (Sent(answers(bots[0])) && e == Emission(Kick, bots[0], group, [actor], Automatic, s))
      || (!answers(bots[0]).Granted? && e in Tries(bots[1..], group, actor, s, answers))
  {}

  // ---- The handlers

  /** Everybody keeps what they are. */
  ghost predicate SameLists(s: State, t: State) {
    && t.creators == s.creators && t.owners == s.owners && t.admins == s.admins && t.bots == s.bots
    && forall g :: GAdmins(t, g) == GAdmins(s, g)
  }

  /** The blacklist with, or without, one more name. */
  ghost predicate Listed(s: State, t: State, removed: bool, actor: Mid) {
    if removed then forall x :: x in t.blacklist <==> x in s.blacklist || x == actor else t.blacklist == s.blacklist
  }

  lemma Settled(s: State, group: Gid, now: int, removed: bool, actor: Mid)
    requires Inv(s) && (removed ==> actor != "" && NoRole(s, group, actor))
    ensures var t := AfterWar(s, group, now);
            var u := if removed then Apply(t, AutoBlacklist(group, actor)) else t;
            SameLists(s, u) && Listed(s, u, removed, actor)
  {
    var t := AfterWar(s, group, now);
    WarExpiryChangesNoRole(s, group, now);
    WarEndRule(s, group, now);
    assert SameLists(s, t);
    if removed {
      assert forall g :: GAdmins(Apply(t, AutoBlacklist(group, actor)), g) == GAdmins(t, g);
      forall x: Mid
        ensures x in Apply(t, AutoBlacklist(group, actor)).blacklist <==> x in s.blacklist || x == actor
      {
        AutoBlacklistChanges(t, group, actor, x);
      }
    }
    hide Inv, AfterWar, WarOn;
  }

  /** Somebody kicked an account that is no bot. The kicker is removed, that is blacklisted and tried by
      kicks, exactly by the rule above; a Creator or Owner is invited back unless a Creator or a bot did it. */
  method UserKicked(g: Engine.Guard, group: Gid, actor: Mid, target: Mid, self: Mid, w: World)
    returns (ghost agent: Mid, ghost tried: seq<Mid>)
    requires g.Valid() && target !in g.store.state.bots
    modifies g`members, g`trace, g`served, g.health, g.store
    ensures g.Valid()
    ensures var s, t := old(g.store.state), g.store.state;
      var judged := group != "" && actor != "" && target != "" && s.creators != [] && !w.duplicate
                    && HasBot(old(g.clients), old(g.members), group, target, self);
      var superior := target in s.creators || target in s.owners;
      var removed := judged && NoRole(s, group, actor)
        && (Switches(s, group).kick || (!superior && WarOn(s, group, w.now) && WarLevel(s, group, 2)));
      var restored := judged && superior && actor !in s.creators && actor !in s.bots;
      && SameLists(s, t) && Listed(s, t, removed, actor)
      && (removed ==> TriedBy(old(g.clients), old(g.members), group, target, self, w.answers, tried)
                      && agent == tried[0])
      && (restored ==> Acts(old(g.clients), old(g.members), group, target, self, agent))
      && g.trace == old(g.trace)
           + (if removed then Tries(tried, group, actor, t, w.answers) else [])
           + (if restored && (w.invites(agent).Refused? || w.invites(agent).Granted?)
              then [Emission(Invite, agent, group, [target], Automatic, t)] else [])
  {
    ghost var s, scene := g.store.state, g.View(w.now);
    if group != "" && actor != "" && target != "" {
      KickerRule(s, group, actor, target, w.now);
    }
    HasBotRead(scene, group, target, self);
    ghost var removed := g.EjectsKicker(group, actor, target, self, w);
    Settled(s, group, w.now, removed, actor);
    agent, tried := g.HandleKick(group, actor, target, self, w);
    if removed {
      EjectionRead(scene, group, target, self, w.answers, tried);
    }
  }

  /** Somebody kicked a bot. A primary bot known to be inside, if it was selected and is the first to, kicks
      back at once, whoever that hits but a bot; the blacklist takes only those without a role. */
  method BotKicked(g: Engine.Guard, group: Gid, actor: Mid, target: Mid, self: Mid, w: World)
    requires g.Valid() && target in g.store.state.bots
    modifies g`members, g`trace, g`served, g.health, g.store
    ensures g.Valid()
    ensures var s, t := old(g.store.state), g.store.state;
      var strikes := group != "" && actor != "" && target != "" && s.creators != [] && !w.duplicate
        && actor !in s.bots && self != target && self in old(g.primaries) && (group, self) in old(g.members)
        && w.selected && !w.completed;
      && SameLists(s, t) && Listed(s, t, strikes && NoRole(s, group, actor), actor)
      && g.trace == old(g.trace) + if strikes then [Emission(Kick, self, group, [actor], BotDefence, t)] else []
  {
    ghost var s := g.store.state;
    ghost var strikes := g.Defends(group, actor, target, self, w);
    if strikes && !NoRole(s, group, actor) {
      AutoBlacklistOnly(s, group, w.now, actor);
    }
    Settled(s, group, w.now, strikes && NoRole(s, group, actor), actor);
    var _, _ := g.HandleKick(group, actor, target, self, w);
  }

  lemma AutoBlacklistOnly(s: State, group: Gid, now: int, actor: Mid)
    requires Inv(s) && actor != "" && !NoRole(s, group, actor)
    ensures Apply(AfterWar(s, group, now), AutoBlacklist(group, actor)) == AfterWar(s, group, now)
  {}

  /** Somebody cancelled invitations; the bots among those they named count as members no more. */
  method Cancelled(g: Engine.Guard, group: Gid, actor: Mid, target: string, targets: seq<Mid>, self: Mid, w: World)
    returns (ghost tried: seq<Mid>)
    requires g.Valid()
    modifies g`members, g`trace, g`served, g.health, g.store
    ensures g.Valid()
    ensures var s, t := old(g.store.state), g.store.state;
      var left := old(g.members) - set m | m in targets && m in old(g.primaries) :: (group, m);
      var removed := group != "" && actor != "" && target != "" && !w.duplicate && NoRole(s, group, actor)
        && (Switches(s, group).cancel || WarOn(s, group, w.now))
        && HasBot(old(g.clients), left, group, target, self);
      && SameLists(s, t) && Listed(s, t, removed, actor)
      && (removed ==> TriedBy(old(g.clients), left, group, target, self, w.answers, tried))
      && g.trace == old(g.trace) + if removed then Tries(tried, group, actor, t, w.answers) else []
  {
    ghost var s := g.store.state;
    ghost var scene := g.View(w.now).(members := g.members - set m | m in targets && m in g.primaries :: (group, m));
    if actor != "" {
      CancellerRule(s, group, actor, w.now);
    }
    HasBotRead(scene, group, target, self);
    ghost var removed := group != "" && actor != "" && target != "" && !w.duplicate
      && RemovesCanceller(s, group, actor, WarSeen(s, group, w.now)) && HasProtector(scene, group, target, self);
    Settled(s, group, w.now, removed, actor);
    tried := g.HandleCancellation(group, actor, target, targets, self, w);
    if removed {
      EjectionRead(scene, group, target, self, w.answers, tried);
    }
  }

  /** Somebody opened the group's link, and it could be closed again. */
  method Opened(g: Engine.Guard, group: Gid, actor: Mid, attribute: string, self: Mid, w: World)
    returns (ghost tried: seq<Mid>)
    requires g.Valid()
    modifies g`members, g`trace, g`served, g.health, g.store
    ensures g.Valid()
    ensures var s, t := old(g.store.state), g.store.state;
      var removed := group != "" && actor != "" && attribute == "4" && !w.duplicate && w.closes
        && NoRole(s, group, actor)
        && (Switches(s, group).qr || WarOn(s, group, w.now) || WarRecord(s, group).locked)
        && HasBot(old(g.clients), old(g.members), group, "", self);
      && SameLists(s, t) && Listed(s, t, removed, actor)
      && (removed ==> TriedBy(old(g.clients), old(g.members), group, "", self, w.answers, tried))
      && g.trace == old(g.trace) + if removed then Tries(tried, group, actor, t, w.answers) else []
  {
    ghost var s, scene := g.store.state, g.View(w.now);
    if actor != "" {
      OpenerRule(s, group, actor, w.now);
    }
    HasBotRead(scene, group, "", self);
    ghost var removed := group != "" && actor != "" && attribute == "4" && !w.duplicate && w.closes
      && RemovesOpener(s, group, actor, WarSeen(s, group, w.now)) && HasProtector(scene, group, "", self);
    Settled(s, group, w.now, removed, actor);
    tried := g.HandleChatUpdate(group, actor, attribute, self, w);
    if removed {
      EjectionRead(scene, group, "", self, w.answers, tried);
    }
  }

  /** Somebody joined: the receiver kicks by the rule above, and nobody is blacklisted for it. */
  method Joined(g: Engine.Guard, group: Gid, param2: Mid, param3: Mid, self: Mid, w: World)
    requires g.Valid()
    modifies g`members, g`trace, g`served, g.health, g.store
    ensures g.Valid()
    ensures var s, t, joined := old(g.store.state), g.store.state, if param2 == "" then param3 else param2;
      var removed := group != "" && joined != ""
        && ((joined in s.blacklist && !w.duplicate)
            || (WarOn(s, group, w.now) && !WarRecord(s, group).dryRun && NoRole(s, group, joined)
                && joined !in WarRecord(s, group).whitelist
                && (WarLevel(s, group, 3)
                    || ((group, joined) in old(g.quarantine) && w.now < old(g.quarantine)[(group, joined)]))));
      && SameLists(s, t) && t.blacklist == s.blacklist
      && g.trace == old(g.trace) +
           if removed && (w.answers(self).Refused? || w.answers(self).Granted?)
           then [Emission(Kick, self, group, [joined], Automatic, t)] else []
  {
    ghost var s := g.store.state;
    JoinerRule(s, group, if param2 == "" then param3 else param2, w, g.quarantine);
    Settled(s, group, w.now, false, "");
    g.HandleJoin(group, param2, param3, self, w);
  }

  /** Those with a role may invite, a mere GAdmin no bot; and bots may. */
  predicate Permitted(s: State, group: Gid, inviter: Mid, invited: seq<Mid>) {
    if Privileged(s, inviter) then true
    else if inviter in Record(s, group).gadmins then forall m | m in invited :: m !in s.bots
    else inviter in s.bots
  }

  lemma JudgesRead(g: Engine.Guard, group: Gid, inviter: Mid, invited: seq<Mid>, self: Mid, w: World)
    requires g.Valid() && inviter != ""
    ensures var s := g.store.state;
      && (g.Judges(group, invited, self, w) <==>
            && self !in invited && s.creators != [] && !w.duplicate
            && HasBot(g.clients, g.members, group, "", self)
            && (Switches(s, group).invite || WarOn(s, group, w.now) || WarRecord(s, group).locked))
      && (g.EjectsInviter(group, inviter, invited, self, w) <==>
            g.Judges(group, invited, self, w) && !Permitted(s, group, inviter, invited))
  {
    var s := g.store.state;
    if s.creators != [] {
      InviterRule(s, group, inviter, invited, w.now);
    }
    HasBotRead(g.View(w.now), group, "", self);
    RolesRead(s, group, inviter);
    WarRead(s, group, w.now);
    hide Inv, RemovesInviter, HasProtector, HasBot, Record, WarSeen, WarOn, ProtectionOf, Switches, RoleOf, NoRole;
  }

  lemma ProtectsRead(scene: Scene, group: Gid, excluded: Mid, self: Mid, agent: Mid)
    requires Protects(scene, group, excluded, self, agent)
    ensures Acts(scene.clients, scene.members, group, excluded, self, agent)
  {
    HasBotRead(scene, group, excluded, self);
    hide Inside, Ready, Health.Less;
  }

  lemma CancelsRead(s: State, now: int, agent: Mid, group: Gid, inviter: Mid, invited: seq<Mid>, answer: Answer)
    requires inviter != ""
    ensures var permitted := Permitted(s, group, inviter, invited);
      var targets := if permitted then BlockedOf(s.blacklist, invited) else invited;
      var t := AfterWar(s, group, now);
      Cancels(t, agent, group, inviter, invited, answer)
      == if (permitted ==> targets != []) && (answer.Refused? || answer.Granted?)
         then [Emission(Cancel, agent, group, targets, Automatic, t)] else []
  {
    var t := AfterWar(s, group, now);
    InvitationRule(t, group, inviter, invited);
    WarEndRule(s, group, now);
    hide AfterWar, MayInvite, WarOn;
  }

  /** Somebody invited others than this bot. What may not be is cancelled: of a permitted inviter's the
      blacklisted, of another's all; and the other one is removed. */
  method InvitedOthers(g: Engine.Guard, group: Gid, inviter: Mid, invited: seq<Mid>, self: Mid, w: World)
    returns (ghost agent: Mid, ghost tried: seq<Mid>)
    requires g.Valid() && self !in invited && inviter != ""
    modifies g`members, g`trace, g`served, g.health, g.store
    ensures g.Valid()
    ensures var s, t := old(g.store.state), g.store.state;
      var judged := s.creators != [] && !w.duplicate && HasBot(old(g.clients), old(g.members), group, "", self)
        && (Switches(s, group).invite || WarOn(s, group, w.now) || WarRecord(s, group).locked);
      var permitted := Permitted(s, group, inviter, invited);
      var targets := if permitted then BlockedOf(s.blacklist, invited) else invited;
      var removed := judged && !permitted;
      && SameLists(s, t) && Listed(s, t, removed && NoRole(s, group, inviter), inviter)
      && (judged ==> Acts(old(g.clients), old(g.members), group, "", self, agent))
      && (removed ==> TriedBy(old(g.clients), old(g.members), group, "", self, w.answers, tried))
      && g.trace == old(g.trace)
           + (if judged && (permitted ==> targets != []) && (w.cancels(agent).Refused? || w.cancels(agent).Granted?)
              then [Emission(Cancel, agent, group, targets, Automatic, AfterWar(s, group, w.now))] else [])
           + (if removed then Tries(tried, group, inviter, t, w.answers) else [])
  {
    ghost var s, scene := g.store.state, g.View(w.now);
    ghost var judges, removed := g.Judges(group, invited, self, w), g.EjectsInviter(group, inviter, invited, self, w);
    JudgesRead(g, group, inviter, invited, self, w);
    assert Inv(s);
    Settled(s, group, w.now, removed && NoRole(s, group, inviter), inviter);
    if removed && !NoRole(s, group, inviter) {
      AutoBlacklistOnly(s, group, w.now, inviter);
    }
    hide Inv, AfterWar, Tries, Cancels, MayInvite, NoRole, Apply, SameLists, Listed, Permitted, HasBot, Ejection;
    hide Protects, TriedInOrder, HasProtector, TriedBy, Acts, BlockedOf, WarOn, Switches, WarRecord;
    agent, tried := g.HandleInvitation(group, inviter, invited, self, w);
    if judges {
      ProtectsRead(scene, group, "", self, agent);
      CancelsRead(s, w.now, agent, group, inviter, invited, w.cancels(agent));
    }
    if removed {
      EjectionRead(scene, group, "", self, w.answers, tried);
    }
  }
}
