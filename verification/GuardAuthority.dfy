/** Who may change which list, and what becomes of it: each command on the guard's lists in terms of the
    lists alone. Everything starts from a state satisfying the store invariant; `x` is any account and `g`
    any group. */
module GuardAuthority {
  import opened Options
  import opened Lists
  import opened GuardState

  /** Neither a bot nor on any of the three lists that stand for all groups. */
  predicate Plain(s: State, mid: Mid) {
    mid != "" && mid !in s.bots && mid !in s.creators && mid !in s.owners && mid !in s.admins
  }

  /** A Creator, an Owner or an Admin. */
  predicate Privileged(s: State, mid: Mid) { mid in s.creators || mid in s.owners || mid in s.admins }

  /** Everything but the lists of names is as before. */
  ghost predicate SameSettings(s: State, t: State) {
    forall g :: RoomOf(t, g).(gadmins := []) == RoomOf(s, g).(gadmins := [])
  }

  /** The names after normalising, from the names before. */
  lemma NormalizedNames(s: State, g: Gid, x: Mid)
    ensures var n := Normalized(s);
      && (x != "" ==>
            && (x in n.bots <==> x in s.bots)
            && (x in n.creators <==> x in s.creators)
            && (x in n.owners <==> x in s.owners && x !in s.creators)
            && (x in n.admins <==> x in s.admins && x !in s.owners && x !in s.creators)
            && (x in n.blacklist <==> x in s.blacklist && Plain(s, x))
            && (x in GAdmins(n, g) <==> x in GAdmins(s, g) && Plain(s, x)))
  {
    hide NormalRoles, NormalRoom;
    var roles, n := NormalRoles(s), Normalized(s);
    NormalRolesApart(s);
    var protected := Protected(roles);
    NormalRolesCopies(s);
    UniqueContents(s.blacklist);
    WithoutAllContents(Unique(s.blacklist), protected);
    if g in s.groups && s.groups[g].Some? {
      NormalRoomClean(s.groups[g].value, protected);
    }
    NormalizedRoom(s, g);
  }

  lemma NormalizedSettings(s: State)
    ensures SameSettings(s, Normalized(s))
    ensures Clean(s.creators) ==> Normalized(s).creators == s.creators
    ensures Clean(s.bots) ==> Normalized(s).bots == s.bots
  {
    hide NormalRoles, NormalRoom;
    NormalRolesCopies(s);
    forall g
      ensures RoomOf(Normalized(s), g).(gadmins := []) == RoomOf(s, g).(gadmins := [])
    {
      if g in s.groups && s.groups[g].Some? {
        NormalRoomKeeps(s.groups[g].value, Protected(NormalRoles(s)));
      }
      NormalizedRoom(s, g);
    }
  }

  lemma NormalRolesCopies(s: State)
    ensures var n := NormalRoles(s);
            n.groups == s.groups && (Clean(s.creators) ==> n.creators == s.creators)
            && (Clean(s.bots) ==> n.bots == s.bots)
  {
    UniqueContents(s.creators);
    UniqueContents(s.bots);
  }

  lemma NormalRoomKeeps(room: Room, protected: seq<Mid>)
    ensures NormalRoom(Some(room), protected).value.(gadmins := []) == room.(gadmins := [])
  {}

  lemma NormalizedRoom(s: State, g: Gid)
    ensures var n, protected := Normalized(s), Protected(NormalRoles(s));
            if g in s.groups then g in n.groups && n.groups[g] == NormalRoom(s.groups[g], protected)
            else g !in n.groups
  {
    hide NormalRoles, NormalRoom, Protected;
  }

  /** The empty ID is on no list, and a list of higher rank excludes the lower ones. */
  lemma ListsApart(s: State, g: Gid, x: Mid)
    requires Inv(s)
    ensures "" !in s.bots && "" !in s.creators && "" !in s.owners && "" !in s.admins && "" !in s.blacklist
    ensures "" !in GAdmins(s, g)
    ensures x in s.owners ==> x !in s.creators
    ensures x in s.admins ==> x !in s.owners && x !in s.creators
    ensures x in s.blacklist ==> Plain(s, x)
    ensures x in GAdmins(s, g) ==> Plain(s, x)
    ensures Clean(s.creators) && Clean(s.bots)
  {
    assert GAdmins(s, g) != [] ==> g in s.groups && Disjoint(GAdmins(s, g), Protected(s)) && Clean(GAdmins(s, g));
    assert Disjoint(s.blacklist, Protected(s)) && Clean(s.blacklist);
  }

  /** A state rebuilt from one that satisfies the invariant, its groups as they were. */
  lemma Rebuilt(s: State, u: State, g: Gid, x: Mid)
    requires Inv(s) && u.groups == s.groups && u.bots == s.bots
    ensures var n := Normalized(u);
      && ("" !in n.creators && "" !in n.owners && "" !in n.admins && "" !in n.blacklist && "" !in GAdmins(n, g))
      && ("" !in s.creators && "" !in s.owners && "" !in s.admins && "" !in s.blacklist && "" !in GAdmins(s, g))
      && (x in s.owners ==> x !in s.creators) && (x in s.admins ==> x !in s.owners && x !in s.creators)
      && (x in s.blacklist || x in GAdmins(s, g) ==> Plain(s, x))
      && (x != "" ==>
            && (x in n.creators <==> x in u.creators)
            && (x in n.owners <==> x in u.owners && x !in u.creators)
            && (x in n.admins <==> x in u.admins && x !in u.owners && x !in u.creators)
            && (x in n.blacklist <==> x in u.blacklist && Plain(u, x))
            && (x in GAdmins(n, g) <==> x in GAdmins(s, g) && Plain(u, x)))
      && n.bots == s.bots && SameSettings(s, n) && (Clean(u.creators) ==> n.creators == u.creators)
      && Clean(s.creators)
  {
    ListsApart(s, g, x);
    NormalizedNames(u, g, x);
    NormalizedSettings(u);
    NormalizedInv(u);
    ListsApart(Normalized(u), g, x);
    hide Inv, Normalized, Clean, Plain;
  }

  // ---- The lists of Creators, Owners and Admins

  /** A Creator makes anyone but a bot a Creator, who leaves every other list; nobody else does. */
  lemma AddCreatorChanges(s: State, actor: Mid, target: Mid, g: Gid, x: Mid)
    requires Inv(s)
    ensures var t := Apply(s, AddCreator(actor, target));
      if actor in s.creators && target != "" && target !in s.bots then
        && (x in t.creators <==> x in s.creators || x == target)
        && (x in t.owners <==> x in s.owners && x != target)
        && (x in t.admins <==> x in s.admins && x != target)
        && (x in t.blacklist <==> x in s.blacklist && x != target)
        && (x in GAdmins(t, g) <==> x in GAdmins(s, g) && x != target)
        && t.bots == s.bots && SameSettings(s, t)
      else t == s
  {
    hide Inv, Normalized, Clean, GAdmins, SameSettings, RoomOf;
    Rebuilt(s, s.(creators := AppendUnique(s.creators, target)), g, x);
  }

  /** A Creator removes another one, whose name was on no other list; nobody removes themselves. */
  lemma DelCreatorChanges(s: State, actor: Mid, target: Mid, x: Mid)
    requires Inv(s)
    ensures var t := Apply(s, DelCreator(actor, target));
      && (x in t.creators <==> x in s.creators && !(x == target && actor in s.creators && actor != target))
      && t == s.(creators := t.creators)
  {
    ListsApart(s, "", actor);
    if actor != target && actor in s.creators && target in s.creators {
      TwoMembers(s.creators, actor, target);
    }
    WithoutContents(s.creators, target);
    hide Inv, Clean, GAdmins;
  }

  lemma TwoMembers(values: seq<Mid>, a: Mid, b: Mid)
    requires a in values && b in values && a != b
    ensures |values| > 1
  {
    var i :| 0 <= i < |values| && values[i] == a;
    var j :| 0 <= j < |values| && values[j] == b;
    assert i != j;
  }

  /** A Creator, and nobody else, makes an Owner of anyone but a bot or a Creator. */
  lemma AddOwnerChanges(s: State, actor: Mid, target: Mid, g: Gid, x: Mid)
    requires Inv(s)
    ensures var t := Apply(s, AddOwner(actor, target));
      if actor in s.creators && target != "" && target !in s.bots && target !in s.creators then
        && t.creators == s.creators
        && (x in t.owners <==> x in s.owners || x == target)
        && (x in t.admins <==> x in s.admins && x != target)
        && (x in t.blacklist <==> x in s.blacklist && x != target)
        && (x in GAdmins(t, g) <==> x in GAdmins(s, g) && x != target)
        && t.bots == s.bots && SameSettings(s, t)
      else t == s
  {
    hide Inv, Normalized, Clean, GAdmins, SameSettings, RoomOf;
    Rebuilt(s, s.(owners := AppendUnique(s.owners, target)), g, x);
  }

  /** A Creator, and nobody else, removes an Owner that is no bot. */
  lemma DelOwnerChanges(s: State, actor: Mid, target: Mid, g: Gid, x: Mid)
    requires Inv(s)
    ensures var t := Apply(s, DelOwner(actor, target));
      && (x in t.owners <==> x in s.owners && !(x == target && actor in s.creators && target !in s.bots))
      && t.creators == s.creators && t.bots == s.bots && SameSettings(s, t)
      && (x in t.admins <==> x in s.admins) && (x in t.blacklist <==> x in s.blacklist)
      && (x in GAdmins(t, g) <==> x in GAdmins(s, g))
  {
    hide Inv, Normalized, Clean, GAdmins, SameSettings;
    NothingChanged(s);
    WithoutContents(s.owners, target);
    ListsApart(s, g, target);
    Rebuilt(s, s.(owners := Without(s.owners, target)), g, x);
  }

  lemma NothingChanged(s: State)
    ensures SameSettings(s, s)
  {}

  /** A Creator or an Owner makes an Admin of whoever is neither, nor a bot. A Creator may name an Owner,
      too, which changes no list. */
  lemma AddAdminChanges(s: State, actor: Mid, target: Mid, g: Gid, x: Mid)
    requires Inv(s)
    ensures var t := Apply(s, AddAdmin(actor, target));
      if (actor in s.creators || actor in s.owners)
        && target != "" && target !in s.bots && target !in s.creators && target !in s.owners
      then
        && (x in t.admins <==> x in s.admins || x == target)
        && t.creators == s.creators && (x in t.owners <==> x in s.owners)
        && (x in t.blacklist <==> x in s.blacklist && x != target)
        && (x in GAdmins(t, g) <==> x in GAdmins(s, g) && x != target)
        && t.bots == s.bots && SameSettings(s, t)
      else SameNamesAt(s, t, g, x)
  {
    hide Inv, Normalized, Clean, GAdmins, SameSettings, RoomOf;
    NothingChanged(s);
    ListsApart(s, g, target);
    Rebuilt(s, s.(admins := AppendUnique(s.admins, target)), g, x);
  }

  ghost predicate SameNamesAt(s: State, t: State, g: Gid, x: Mid) {
    && t.creators == s.creators && t.bots == s.bots && SameSettings(s, t)
    && (x in t.owners <==> x in s.owners) && (x in t.admins <==> x in s.admins)
    && (x in t.blacklist <==> x in s.blacklist) && (x in GAdmins(t, g) <==> x in GAdmins(s, g))
  }

  /** A Creator or an Owner, and nobody else, removes an Admin that is no bot. */
  lemma DelAdminChanges(s: State, actor: Mid, target: Mid, g: Gid, x: Mid)
    requires Inv(s)
    ensures var t := Apply(s, DelAdmin(actor, target));
      && (x in t.admins <==>
            x in s.admins && !(x == target && (actor in s.creators || actor in s.owners) && target !in s.bots))
      && t.creators == s.creators && t.bots == s.bots && SameSettings(s, t)
      && (x in t.owners <==> x in s.owners) && (x in t.blacklist <==> x in s.blacklist)
      && (x in GAdmins(t, g) <==> x in GAdmins(s, g))
  {
    hide Inv, Normalized, Clean, GAdmins, SameSettings;
    NothingChanged(s);
    WithoutContents(s.admins, target);
    ListsApart(s, g, target);
    Rebuilt(s, s.(admins := Without(s.admins, target)), g, x);
  }

  // ---- A group's list of GAdmins

  lemma RebuiltRoom(s: State, group: Gid, gadmins: seq<Mid>, g: Gid, x: Mid)
    requires Inv(s)
    ensures var n := Normalized(WithRoom(s, group, RoomOf(s, group).(gadmins := gadmins)));
      && "" !in GAdmins(n, g) && "" !in n.owners && "" !in n.admins && "" !in n.blacklist
      && "" !in s.creators && "" !in s.owners && "" !in s.admins && "" !in s.blacklist
      && (x in GAdmins(s, g) ==> Plain(s, x))
      && (x != "" ==>
           (x in GAdmins(n, g) <==> (if g == group then x in gadmins else x in GAdmins(s, g)) && Plain(s, x)))
      && n.creators == s.creators && n.bots == s.bots && SameSettings(s, n)
      && (x in n.owners <==> x in s.owners) && (x in n.admins <==> x in s.admins)
      && (x in n.blacklist <==> x in s.blacklist)
  {
    var u := WithRoom(s, group, RoomOf(s, group).(gadmins := gadmins));
    WithRoomNames(s, group, gadmins, g);
    ListsApart(s, g, x);
    NormalizedNames(u, g, x);
    NormalizedSettings(u);
    NormalizedInv(u);
    ListsApart(Normalized(u), g, x);
    SettingsChain(s, u, Normalized(u));
    hide Inv, Normalized, Clean;
  }

  lemma WithRoomNames(s: State, group: Gid, gadmins: seq<Mid>, g: Gid)
    ensures var u := WithRoom(s, group, RoomOf(s, group).(gadmins := gadmins));
            SameSettings(s, u) && GAdmins(u, g) == if g == group then gadmins else GAdmins(s, g)
  {}

  lemma SettingsChain(s: State, u: State, t: State)
    requires SameSettings(s, u) && SameSettings(u, t)
    ensures SameSettings(s, t)
  {
    hide RoomOf;
  }

  /** Admins and above make a GAdmin of whoever is none of them, nor a bot; another group's list, or any
      other one, stays. Naming somebody of higher rank changes no list. */
  lemma AddGAdminChanges(s: State, group: Gid, actor: Mid, target: Mid, g: Gid, x: Mid)
    requires Inv(s)
    ensures var t := Apply(s, AddGAdmin(group, actor, target));
      && t.creators == s.creators && t.bots == s.bots && SameSettings(s, t)
      && (x in t.owners <==> x in s.owners) && (x in t.admins <==> x in s.admins)
      && (x in t.blacklist <==> x in s.blacklist)
      && (x in GAdmins(t, g) <==>
            || x in GAdmins(s, g)
            || (g == group != "" && x == target && Plain(s, target) && Privileged(s, actor)))
  {
    hide Inv, Normalized, Clean, SameSettings, WithRoom;
    NothingChanged(s);
    ListsApart(s, g, actor);
    ListsApart(s, group, target);
    RebuiltRoom(s, group, AppendUnique(GAdmins(s, group), target), g, x);
  }

  /** Admins and above, and nobody else, remove a GAdmin. */
  lemma DelGAdminChanges(s: State, group: Gid, actor: Mid, target: Mid, g: Gid, x: Mid)
    requires Inv(s)
    ensures var t := Apply(s, DelGAdmin(group, actor, target));
      && t.creators == s.creators && t.bots == s.bots && SameSettings(s, t)
      && (x in t.owners <==> x in s.owners) && (x in t.admins <==> x in s.admins)
      && (x in t.blacklist <==> x in s.blacklist)
      && (x in GAdmins(t, g) <==>
            x in GAdmins(s, g) && !(g == group != "" && x == target && Privileged(s, actor)))
  {
    hide Inv, Normalized, Clean, SameSettings, WithRoom;
    NothingChanged(s);
    ListsApart(s, group, actor);
    ListsApart(s, group, target);
    WithoutContents(GAdmins(s, group), target);
    RebuiltRoom(s, group, Without(GAdmins(s, group), target), g, x);
  }

  // ---- Bots, the first Creator and backups

  /** A new bot leaves every GAdmin list and the blacklist; the other lists stay. */
  lemma RegisterBotChanges(s: State, mid: Mid, g: Gid, x: Mid)
    requires Inv(s)
    ensures var t := Apply(s, RegisterBot(mid));
      && (x in t.bots <==> x in s.bots || (x == mid && mid != ""))
      && t.creators == s.creators && SameSettings(s, t)
      && (x in t.owners <==> x in s.owners) && (x in t.admins <==> x in s.admins)
      && (x in t.blacklist <==> x in s.blacklist && x != mid)
      && (x in GAdmins(t, g) <==> x in GAdmins(s, g) && x != mid)
  {
    hide Inv, Normalized, Clean, GAdmins, SameSettings, RoomOf;
    NothingChanged(s);
    var u := s.(bots := s.bots + [mid]);
    ListsApart(s, g, x);
    NormalizedNames(u, g, x);
    NormalizedSettings(u);
    NormalizedInv(u);
    ListsApart(Normalized(u), g, x);
    SameRooms(s, u);
    if mid != "" && mid !in s.bots {
      SettingsChain(s, u, Normalized(u));
    }
    assert GAdmins(u, g) == GAdmins(s, g) by {
      SameGAdmins(s, u, g);
    }
  }

  lemma SameGAdmins(s: State, u: State, g: Gid)
    requires u.groups == s.groups
    ensures GAdmins(u, g) == GAdmins(s, g)
  {}

  lemma SameRooms(s: State, u: State)
    requires u.groups == s.groups
    ensures SameSettings(s, u)
  {}

  /** Without a Creator the first inviter becomes one, and leaves the other lists; with one, nothing happens. */
  lemma BootstrapChanges(s: State, inviter: Mid, g: Gid, x: Mid)
    requires Inv(s)
    ensures var t := Apply(s, BootstrapCreator(inviter));
      if inviter != "" && s.creators == [] then
        && t.creators == [inviter] && t.bots == s.bots && SameSettings(s, t)
        && (x in t.owners <==> x in s.owners && x != inviter) && (x in t.admins <==> x in s.admins && x != inviter)
        && (x in t.blacklist <==> x in s.blacklist && x != inviter)
        && (x in GAdmins(t, g) <==> x in GAdmins(s, g) && x != inviter)
      else t == s
  {
    hide Inv, Normalized, GAdmins, SameSettings, RoomOf;
    Rebuilt(s, s.(creators := [inviter]), g, x);
  }

  /** A backup is loaded by a Creator whom it names as one; it is normalised. */
  lemma RestoreChanges(s: State, actor: Mid, backup: State)
    requires Inv(s)
    ensures Apply(s, Restore(actor, None)) == s
    ensures Apply(s, Restore(actor, Some(backup)))
         == if actor in s.creators && actor in backup.creators then Normalized(backup) else s
  {
    hide Inv, Normalized, Clean;
    ListsApart(s, "", actor);
  }

  // ---- The blacklist

  /** Creators, Owners and Admins put on the list whoever is none of them and no bot. */
  lemma AddBlacklistChanges(s: State, group: Gid, actor: Mid, target: Mid, g: Gid, x: Mid)
    requires Inv(s)
    ensures var t := Apply(s, AddBlacklist(group, actor, target));
      && (x in t.blacklist <==>
            x in s.blacklist || (x == target && Plain(s, target) && Privileged(s, actor)))
      && t.creators == s.creators && t.bots == s.bots && SameSettings(s, t)
      && (x in t.owners <==> x in s.owners) && (x in t.admins <==> x in s.admins)
      && (x in GAdmins(t, g) <==> x in GAdmins(s, g))
  {
    hide Inv, Normalized, Clean, SameSettings, RoomOf;
    NothingChanged(s);
    ListsApart(s, group, actor);
    ListsApart(s, group, target);
    Rebuilt(s, s.(blacklist := AppendUnique(s.blacklist, target)), g, x);
  }

  /** They and the group's GAdmins take one off. */
  lemma UnbanChanges(s: State, group: Gid, actor: Mid, target: Mid, x: Mid)
    requires Inv(s)
    ensures var t := Apply(s, Unban(group, actor, target));
      && t == s.(blacklist := t.blacklist)
      && (x in t.blacklist <==>
            x in s.blacklist && !(x == target && (Privileged(s, actor) || actor in GAdmins(s, group))))
  {
    hide Inv, Clean, Normalized;
    ListsApart(s, group, actor);
    WithoutContents(s.blacklist, target);
  }

  /** Only they empty it. */
  lemma ClearBlacklistChanges(s: State, group: Gid, actor: Mid)
    requires Inv(s)
    ensures Apply(s, ClearBlacklist(group, actor))
         == s.(blacklist := if Privileged(s, actor) then [] else s.blacklist)
  {
    hide Inv, Clean, Normalized;
    ListsApart(s, group, actor);
  }

  /** The guard puts on it whoever is no bot and holds no role there. */
  lemma AutoBlacklistChanges(s: State, group: Gid, target: Mid, x: Mid)
    requires Inv(s)
    ensures var t := Apply(s, AutoBlacklist(group, target));
      && t == s.(blacklist := t.blacklist)
      && (x in t.blacklist <==>
            x in s.blacklist || (x == target && Plain(s, target) && target !in GAdmins(s, group)))
  {
    hide Inv, Clean, Normalized;
    ListsApart(s, group, target);
  }

  // ---- Who changes a list of roles at all

  /** Who gives the command, if anyone does. */
  function Doer(c: Command): Mid {
    match c
    case AddCreator(actor, _) => actor
    case DelCreator(actor, _) => actor
    case AddOwner(actor, _) => actor
    case DelOwner(actor, _) => actor
    case AddAdmin(actor, _) => actor
    case DelAdmin(actor, _) => actor
    case AddGAdmin(_, actor, _) => actor
    case DelGAdmin(_, actor, _) => actor
    case Restore(actor, _) => actor
    case _ => ""
  }

  /** Whatever the command: a name enters or leaves the Creators or Owners only by a Creator's doing, the
      Admins only by a Creator's or an Owner's, a GAdmin list only by an Admin's or above; but for the
      first Creator, and bots, who lose their GAdmin role when they come online. */
  lemma OnlySuperiorsChangeRoles(s: State, c: Command, g: Gid, x: Mid)
    requires Inv(s)
    ensures var t, first := Apply(s, c), c.BootstrapCreator? && s.creators == [];
      && ((x in t.creators) != (x in s.creators) ==> first || Doer(c) in s.creators)
      && ((x in t.owners) != (x in s.owners) ==> first || Doer(c) in s.creators)
      && ((x in t.admins) != (x in s.admins) ==> first || Doer(c) in s.creators || Doer(c) in s.owners)
      && ((x in GAdmins(t, g)) != (x in GAdmins(s, g)) ==>
            first || c == RegisterBot(x) || Privileged(s, Doer(c)))
  {
    hide Inv, Apply, GAdmins, SameSettings, Plain, Normalized, Clean, Effect, Allowed;
    match c {
      case BootstrapCreator(inviter) => BootstrapChanges(s, inviter, g, x);
      case RegisterBot(mid) => RegisterBotChanges(s, mid, g, x);
      case AddCreator(actor, target) => AddCreatorChanges(s, actor, target, g, x);
      case DelCreator(actor, target) =>
        DelCreatorChanges(s, actor, target, x);
        SameGAdmins(s, Apply(s, c), g);
      case AddOwner(actor, target) => AddOwnerChanges(s, actor, target, g, x);
      case DelOwner(actor, target) => DelOwnerChanges(s, actor, target, g, x);
      case AddAdmin(actor, target) => AddAdminChanges(s, actor, target, g, x);
      case DelAdmin(actor, target) => DelAdminChanges(s, actor, target, g, x);
      case AddGAdmin(group, actor, target) => AddGAdminChanges(s, group, actor, target, g, x);
      case DelGAdmin(group, actor, target) => DelGAdminChanges(s, group, actor, target, g, x);
      case Restore(actor, backup) =>
        if backup.Some? {
          RestoreChanges(s, actor, backup.value);
        } else {
          RestoreChanges(s, actor, s);
        }
      case AddBlacklist(group, actor, target) => AddBlacklistChanges(s, group, actor, target, g, x);
      case Unban(group, actor, target) =>
        UnbanChanges(s, group, actor, target, x);
        SameGAdmins(s, Apply(s, c), g);
      case ClearBlacklist(group, actor) =>
        ClearBlacklistChanges(s, group, actor);
        SameGAdmins(s, Apply(s, c), g);
      case AutoBlacklist(group, target) =>
        AutoBlacklistChanges(s, group, target, x);
        SameGAdmins(s, Apply(s, c), g);
      case _ => SettingsKeepNames(s, c, g);
    }
  }

  lemma SettingsKeepNames(s: State, c: Command, g: Gid)
    requires Inv(s) && IsSetting(c)
    ensures var t := Apply(s, c);
      && t == s.(groups := t.groups) && GAdmins(t, g) == GAdmins(s, g)
  {
    hide Inv, Allowed, Effect, Normalized, IsSetting;
    if Allowed(s, c) {
      var room := SettingsRoom(s, c);
    }
  }

  // ---- A group's settings

  /** The group's record, an empty one if it has none. */
  function Record(s: State, group: Gid): Room {
    if group in s.groups && s.groups[group].Some? then s.groups[group].value
    else Room([], 0, [], None, false, [], None)
  }

  /** The record with another record's settings put in. */
  ghost predicate OnlyRecord(s: State, t: State, group: Gid, room: Room) {
    t == s.(groups := s.groups[group := Some(room)])
  }

  /** Whoever holds a role there turns the tracking of readers on or off, which forgets them. */
  lemma SetLurkChanges(s: State, group: Gid, actor: Mid, on: bool)
    requires Inv(s)
    ensures var t := Apply(s, SetLurk(group, actor, on));
      if Privileged(s, actor) || actor in GAdmins(s, group)
      then OnlyRecord(s, t, group, Record(s, group).(lurk := on, readers := [])) else t == s
  {
    hide Inv, Clean, Normalized;
    ListsApart(s, group, actor);
  }

  /** A reader is noted once, while tracking is on. */
  lemma RecordReaderChanges(s: State, group: Gid, mid: Mid)
    ensures var t, room := Apply(s, RecordReader(group, mid)), Record(s, group);
      if room.lurk && mid != "" && mid !in room.readers
      then OnlyRecord(s, t, group, room.(readers := room.readers + [mid])) else t == s
  {
    hide Normalized;
  }

  /** Creators, Owners and Admins switch protections: one, or with "all" the four against invitations,
      cancellations, kicks and link openings. */
  lemma SetProtectionChanges(s: State, group: Gid, actor: Mid, scope: Scope, on: bool)
    requires Inv(s)
    ensures var t, room := Apply(s, SetProtection(group, actor, scope, on)), Record(s, group);
      if Privileged(s, actor) then
        var was := if room.protection.Some? then room.protection.value
                   else Protection(false, false, false, false, false, false);
        var all := scope == AllScopes;
        OnlyRecord(s, t, group, room.(protection := Some(Protection(
          if all || scope == InviteScope then on else was.invite,
          if all || scope == CancelScope then on else was.cancel,
          if all || scope == KickScope then on else was.kick,
          if all || scope == QrScope then on else was.qr,
          if scope == MentionScope then on else was.all,
          if scope == FloodScope then on else was.flood))))
      else t == s
  {
    hide Inv, Clean, Normalized;
    ListsApart(s, group, actor);
  }

  /** They keep up to two of the reserves named. */
  lemma SetReservePlanChanges(s: State, group: Gid, actor: Mid, count: int, mids: seq<Mid>)
    requires Inv(s)
    ensures var t := Apply(s, SetReservePlan(group, actor, count, mids));
      if Privileged(s, actor) && (count == 0 || count == 1 || count == 2) && count <= |mids|
      then OnlyRecord(s, t, group, Record(s, group).(standbyCount := count, reserves := mids[..count])) else t == s
  {
    hide Inv, Clean, Normalized;
    ListsApart(s, group, actor);
  }

  /** War as recorded: off and of level two where nothing is. */
  function WarRecord(s: State, group: Gid): War {
    var room := Record(s, group);
    if room.war.Some? then room.war.value else War(false, 2, 0, false, false, false, [], "", "")
  }

  /** Creators and Owners change a group's war, whose whitelist then names everybody on it once. */
  lemma UpdateWarChanges(s: State, group: Gid, actor: Mid, update: War -> War, x: Mid)
    requires Inv(s)
    ensures var t, war := Apply(s, UpdateWar(group, actor, update)), update(WarRecord(s, group));
      if actor in s.creators || actor in s.owners then
        && OnlyRecord(s, t, group, Record(s, group).(war := Some(war.(whitelist := WarRecord(t, group).whitelist))))
        && Clean(WarRecord(t, group).whitelist)
        && (x in WarRecord(t, group).whitelist <==> x in war.whitelist && x != "")
      else t == s
  {
    hide Inv, Clean, Normalized, Unique;
    ListsApart(s, group, actor);
    UniqueContents(update(WarRecord(s, group)).whitelist);
  }

  /** War comes on by itself where it is set to and is not on already. */
  lemma WarByItselfChanges(s: State, group: Gid, until: int, reason: string)
    ensures var t, war := Apply(s, ActivateWarAuto(group, until, reason)), WarRecord(s, group);
      OnlyRecord(s, t, group, Record(s, group).(war := Some(
        if war.auto && !war.enabled then war.(enabled := true, until := until, reason := reason, startedBy := "auto")
        else war)))
  {
    hide Normalized;
  }

  lemma WarExpiryChanges(s: State, group: Gid)
    ensures var t, war := Apply(s, ExpireWar(group)), WarRecord(s, group);
      if war.enabled
      then OnlyRecord(s, t, group, Record(s, group).(war := Some(war.(enabled := false, locked := false)))) else t == s
  {
    hide Normalized;
  }
}
