/** Role commands act only on their target. Everything here starts from a state satisfying the store
    invariant, that is from any reachable state. */
module GuardRoles {
  import opened Lists
  import opened GuardState

  predicate IsAdd(c: Command) { c.AddCreator? || c.AddOwner? || c.AddAdmin? || c.AddGAdmin? }

  predicate IsDel(c: Command) { c.DelCreator? || c.DelOwner? || c.DelAdmin? || c.DelGAdmin? }

  /** The group a role command is judged in: the global ones use the empty group ID. */
  function Venue(c: Command): Gid
    requires IsAdd(c) || IsDel(c)
  {
    if c.AddGAdmin? || c.DelGAdmin? then c.group else ""
  }

  /** Roles in the invariant's own words: each list is a level, and they do not overlap. */
  lemma RoleByLists(s: State, group: Gid, mid: Mid)
    requires Inv(s)
    ensures RoleOf(s, group, mid) == Creator <==> mid in s.creators
    ensures RoleOf(s, group, mid) == Owner <==> mid in s.owners
    ensures RoleOf(s, group, mid) == Admin <==> mid in s.admins
    ensures RoleOf(s, group, mid) == GAdmin <==> mid in GAdmins(s, group)
  {
    if mid in GAdmins(s, group) {
      assert group in s.groups && Disjoint(GAdmins(s, group), Protected(s)) && Clean(GAdmins(s, group));
    }
  }

  /** What a successful Add leaves of everybody's role, read off the roles before it. */
  lemma RoleAfterAdd(s: State, c: Command, group: Gid, mid: Mid)
    requires Inv(s) && Allowed(s, c) && IsAdd(c) && mid != ""
    ensures var before, after := RoleOf(s, group, mid), RoleOf(Apply(s, c), group, mid);
      match c
      case AddCreator(_, target) => after == if mid == target then Creator else before
      case AddOwner(_, target) => after == if mid == target then Owner else before
      case AddAdmin(_, target) => after == if mid == target && before != Owner then Admin else before
      case AddGAdmin(g, _, target) => after == if mid == target && group == g && before == User then GAdmin else before
      case _ => true
  {
    hide Normalized, Inv;
    RoleByLists(s, group, mid);
    BotsAreNoGAdmins(s, group, mid);
    match c {
      case AddCreator(_, target) => NormalizedRole(s.(creators := AppendUnique(s.creators, target)), group, mid);
      case AddOwner(_, target) => NormalizedRole(s.(owners := AppendUnique(s.owners, target)), group, mid);
      case AddAdmin(_, target) => NormalizedRole(s.(admins := AppendUnique(s.admins, target)), group, mid);
      case AddGAdmin(g, _, target) =>
        NormalizedRole(WithRoom(s, g, RoomOf(s, g).(gadmins := AppendUnique(GAdmins(s, g), target))), group, mid);
    }
  }

  /** And a successful Del. */
  lemma RoleAfterDel(s: State, c: Command, group: Gid, mid: Mid)
    requires Inv(s) && Allowed(s, c) && IsDel(c) && mid != ""
    ensures var before, after := RoleOf(s, group, mid), RoleOf(Apply(s, c), group, mid);
      match c
      case DelCreator(_, target) => after == if mid == target then User else before
      case DelOwner(_, target) => after == if mid == target && before == Owner then User else before
      case DelAdmin(_, target) => after == if mid == target && before == Admin then User else before
      case DelGAdmin(g, _, target) => after == if mid == target && group == g && before == GAdmin then User else before
      case _ => true
  {
    hide Normalized, Inv;
    RoleByLists(s, group, mid);
    BotsAreNoGAdmins(s, group, mid);
    match c {
      case DelCreator(_, target) => WithoutContents(s.creators, target);
      case DelOwner(_, target) =>
        WithoutContents(s.owners, target);
        NormalizedRole(s.(owners := Without(s.owners, target)), group, mid);
      case DelAdmin(_, target) =>
        WithoutContents(s.admins, target);
        NormalizedRole(s.(admins := Without(s.admins, target)), group, mid);
      case DelGAdmin(g, _, target) =>
        WithoutContents(GAdmins(s, g), target);
        NormalizedRole(WithRoom(s, g, RoomOf(s, g).(gadmins := Without(GAdmins(s, g), target))), group, mid);
    }
  }

  lemma BotsAreNoGAdmins(s: State, group: Gid, mid: Mid)
    requires Inv(s)
    ensures mid in GAdmins(s, group) ==> mid !in s.bots
  {
    if mid in GAdmins(s, group) {
      assert group in s.groups && Disjoint(GAdmins(s, group), Protected(s));
    }
  }

  /** A successful Add lowers nobody in any group, and lifts its target no higher than its actor. */
  lemma AddNeverLowersNorOverreaches(s: State, c: Command, group: Gid, mid: Mid)
    requires Inv(s) && Allowed(s, c) && IsAdd(c)
    ensures RoleOf(Apply(s, c), group, mid).Rank() >= RoleOf(s, group, mid).Rank()
    ensures RoleOf(Apply(s, c), group, c.target).Rank() <= RoleOf(s, Venue(c), c.actor).Rank()
  {
    hide Inv, Apply;
    RoleByLists(s, group, c.target);
    RoleByLists(s, Venue(c), c.target);
    RoleAfterAdd(s, c, group, c.target);
    if mid != "" {
      RoleAfterAdd(s, c, group, mid);
    }
  }

  /** No role command, adding or removing, changes the role of anyone but its target. */
  lemma OthersKeepTheirRoles(s: State, c: Command, group: Gid, mid: Mid)
    requires Inv(s) && (IsAdd(c) || IsDel(c)) && mid != c.target
    ensures RoleOf(Apply(s, c), group, mid) == RoleOf(s, group, mid)
  {
    hide Inv;
    if Allowed(s, c) && mid != "" {
      if IsAdd(c) {
        RoleAfterAdd(s, c, group, mid);
      } else {
        RoleAfterDel(s, c, group, mid);
      }
    }
  }

  /** Removing a Creator, Owner or Admin who held that role leaves a plain user in every group. */
  lemma RemovedBecomesUser(s: State, c: Command, group: Gid)
    requires Inv(s) && Allowed(s, c)
    requires (c.DelCreator? && c.target in s.creators) || (c.DelOwner? && c.target in s.owners)
        || (c.DelAdmin? && c.target in s.admins)
    ensures RoleOf(Apply(s, c), group, c.target) == User
  {
    hide Inv, Apply;
    RoleByLists(s, group, c.target);
    assert c.target != "" by {
      HoldersHaveNames(s, c.target);
    }
    RoleAfterDel(s, c, group, c.target);
  }

  lemma HoldersHaveNames(s: State, mid: Mid)
    requires Inv(s) && mid in s.creators + s.owners + s.admins
    ensures mid != ""
  {
  }

  /** Blacklist and settings commands move no role at all; making an account a bot can only take
      its GAdmin roles away. */
  lemma OtherCommandsKeepRoles(s: State, c: Command, group: Gid, mid: Mid)
    requires Inv(s) && Allowed(s, c) && !IsAdd(c) && !IsDel(c) && !c.BootstrapCreator? && !c.Restore?
    ensures RoleOf(Apply(s, c), group, mid)
      == if c.RegisterBot? && mid == c.mid && RoleOf(s, group, mid) == GAdmin then User else RoleOf(s, group, mid)
  {
    hide Normalized, Inv;
    if mid != "" {
      BotsAreNoGAdmins(s, group, mid);
      if c.RegisterBot? {
        NormalizedRole(s.(bots := s.bots + [c.mid]), group, mid);
        RoleByLists(s, group, mid);
      } else if c.AddBlacklist? {
        NormalizedRole(s.(blacklist := AppendUnique(s.blacklist, c.target)), group, mid);
      } else if IsSetting(c) {
        hide RoleOf;
        SettingsStep(s, c);
      }
    }
  }

  /** Permission to kick: strictly above the target, or a Creator if the target is a bot; never
      oneself; never a Creator who is not also a bot. */
  lemma CanKickIsStrict(s: State, group: Gid, actor: Mid, target: Mid)
    requires CanKick(s, group, actor, target)
    ensures actor != target && RoleOf(s, group, actor).Rank() >= GAdmin.Rank()
    ensures target in s.bots ==> RoleOf(s, group, actor) == Creator
    ensures target !in s.bots ==> RoleOf(s, group, target) != Creator
    ensures target !in s.bots && actor !in s.bots ==> !CanKick(s, group, target, actor)
  {
  }
}
