/** The guard's persistent state: roles, bots, blacklist and per-group settings, the normaliser, and
    what each store command does to them. */
module GuardState {
  import opened Options
  import opened Lists

  type Gid = string

  datatype Role = User | GAdmin | Admin | Owner | Creator {
    function Rank(): nat {
      match this
      case User => 0
      case GAdmin => 1
      case Admin => 2
      case Owner => 3
      case Creator => 4
    }
  }

  datatype Protection = Protection(invite: bool, cancel: bool, kick: bool, qr: bool, all: bool, flood: bool)

  const NO_PROTECTION := Protection(false, false, false, false, false, false)

  datatype War = War(
    enabled: bool, level: int, until: int, auto: bool, locked: bool, dryRun: bool, whitelist: seq<Mid>, reason: string,
    startedBy: Mid)

  const DEFAULT_WAR := War(false, 2, 0, false, false, false, [], "", "")

  datatype Room = Room(
    gadmins: seq<Mid>, standbyCount: int, reserves: seq<Mid>, protection: Option<Protection>, lurk: bool,
    readers: seq<Mid>,
    war: Option<War>)

  const EMPTY_ROOM := Room([], 0, [], None, false, [], None)

  /** `groups` may hold nil rooms: JSON can say so. */
  datatype State = State(
    creators: seq<Mid>, owners: seq<Mid>, admins: seq<Mid>, blacklist: seq<Mid>, bots: seq<Mid>,
    groups: map<Gid, Option<Room>>)

  function GAdmins(s: State, group: Gid): seq<Mid> {
    if group in s.groups && s.groups[group].Some? then s.groups[group].value.gadmins else []
  }

  function RoleOf(s: State, group: Gid, mid: Mid): Role {
    if mid == "" then User
    else if mid in s.creators then Creator
    else if mid in s.owners then Owner
    else if mid in s.admins then Admin
    else if mid in GAdmins(s, group) then GAdmin
    else User
  }

  function CanKick(s: State, group: Gid, actor: Mid, target: Mid): bool {
    var actorRole, targetRole := RoleOf(s, group, actor), RoleOf(s, group, target);
    if actorRole.Rank() < GAdmin.Rank() || actor == target then false
    else if target in s.bots then actorRole == Creator
    else actorRole.Rank() > targetRole.Rank()
  }

  /** Everyone a blacklist or a group's GAdmin list must not name. */
  function Protected(s: State): seq<Mid> { s.bots + s.owners + s.admins + s.creators }

  function NormalRoom(room: Option<Room>, protected: seq<Mid>): (r: Option<Room>)
    ensures r.Some? <==> room.Some?
  {
    match room
    case None => None
    case Some(r) => Some(r.(gadmins := WithoutAll(Unique(r.gadmins), protected)))
  }

  function NormalRoles(s: State): State {
    var bots, creators := Unique(s.bots), Unique(s.creators);
    var owners := WithoutAll(Unique(s.owners), creators);
    var admins := WithoutAll(Unique(s.admins), owners + creators);
    s.(bots := bots, creators := creators, owners := owners, admins := admins)
  }

  function Normalized(s: State): State {
    var roles := NormalRoles(s);
    var protected := Protected(roles);
    roles.(blacklist := WithoutAll(Unique(s.blacklist), protected),
           groups := map g | g in s.groups :: NormalRoom(s.groups[g], protected))
  }

  // ---- The invariant

  ghost predicate RolesApart(s: State) {
    && Clean(s.creators) && Clean(s.owners) && Clean(s.admins) && Clean(s.bots)
    && Disjoint(s.owners, s.creators) && Disjoint(s.admins, s.owners) && Disjoint(s.admins, s.creators)
  }

  /** No list repeats or holds the empty ID; Creators, Owners and Admins are disjoint; and neither
      the blacklist nor any GAdmin list names a bot or one of them. */
  ghost predicate Inv(s: State) {
    && RolesApart(s)
    && Clean(s.blacklist) && Disjoint(s.blacklist, Protected(s))
    && forall g | g in s.groups :: Clean(GAdmins(s, g)) && Disjoint(GAdmins(s, g), Protected(s))
  }

  lemma NormalRolesApart(s: State)
    ensures RolesApart(NormalRoles(s))
    ensures RolesApart(s) ==> NormalRoles(s) == s
    ensures var n := NormalRoles(s);
            forall x | x != "" ::
              && (x in n.bots <==> x in s.bots)
              && (x in n.creators <==> x in s.creators)
              && (x in n.owners <==> x in s.owners && x !in s.creators)
              && (x in n.admins <==> x in s.admins && x !in s.owners && x !in s.creators)
  {
    var n := NormalRoles(s);
    UniqueContents(s.bots);
    UniqueContents(s.creators);
    UniqueContents(s.owners);
    UniqueContents(s.admins);
    WithoutAllContents(Unique(s.owners), n.creators);
    WithoutAllContents(Unique(s.admins), n.owners + n.creators);
  }

  lemma NormalRoomClean(room: Room, protected: seq<Mid>)
    ensures var n := NormalRoom(Some(room), protected).value.gadmins;
            && Clean(n) && Disjoint(n, protected)
            && (forall x | x != "" :: x in n <==> x in room.gadmins && x !in protected)
            && (Clean(room.gadmins) && Disjoint(room.gadmins, protected) ==> n == room.gadmins)
  {
    UniqueContents(room.gadmins);
    WithoutAllContents(Unique(room.gadmins), protected);
  }

  /** Normalising any state whatever, such as one read from a file, establishes the invariant. */
  lemma NormalizedInv(s: State)
    ensures Inv(Normalized(s))
  {
    hide NormalRoles, RolesApart, NormalRoom;
    var roles, n := NormalRoles(s), Normalized(s);
    NormalRolesApart(s);
    var protected := Protected(roles);
    assert Protected(n) == protected;
    SameRolesApart(roles, n);
    hide Protected;
    UniqueContents(s.blacklist);
    WithoutAllContents(Unique(s.blacklist), protected);
    forall g | g in n.groups ensures Clean(GAdmins(n, g)) && Disjoint(GAdmins(n, g), protected) {
      if s.groups[g].Some? {
        NormalRoomClean(s.groups[g].value, protected);
      }
    }
  }

  lemma SameRolesApart(s: State, t: State)
    requires RolesApart(s)
    requires s.creators == t.creators && s.owners == t.owners && s.admins == t.admins && s.bots == t.bots
    ensures RolesApart(t)
  {
  }

  /** A state that satisfies it is a fixed point, so normalising twice is normalising once. */
  lemma NormalizedFixedPoint(s: State)
    requires Inv(s)
    ensures Normalized(s) == s
  {
    hide NormalRoom;
    NormalRolesApart(s);
    assert NormalRoles(s) == s;
    hide NormalRoles, RolesApart, Protected;
    var protected := Protected(s);
    UniqueContents(s.blacklist);
    WithoutAllContents(s.blacklist, protected);
    forall g | g in s.groups ensures NormalRoom(s.groups[g], protected) == s.groups[g] {
      FixedRoom(s.groups[g], protected, GAdmins(s, g));
    }
    assert Normalized(s).groups == s.groups;
  }

  lemma FixedRoom(room: Option<Room>, protected: seq<Mid>, gadmins: seq<Mid>)
    requires room.Some? ==> gadmins == room.value.gadmins
    requires Clean(gadmins) && Disjoint(gadmins, protected)
    ensures NormalRoom(room, protected) == room
  {
    if room.Some? {
      NormalRoomClean(room.value, protected);
    }
  }

  /** Roles after normalisation, read off the lists before it. */
  lemma NormalizedRole(s: State, group: Gid, mid: Mid)
    requires mid != ""
    ensures RoleOf(Normalized(s), group, mid) ==
      if mid in s.creators then Creator
      else if mid in s.owners then Owner
      else if mid in s.admins then Admin
      else if mid in GAdmins(s, group) && mid !in s.bots then GAdmin
      else User
  {
    hide NormalRoles, NormalRoom;
    var roles, n := NormalRoles(s), Normalized(s);
    NormalRolesApart(s);
    var protected := Protected(roles);
    if group in s.groups && s.groups[group].Some? {
      NormalRoomClean(s.groups[group].value, protected);
      assert GAdmins(n, group) == NormalRoom(s.groups[group], protected).value.gadmins;
    } else {
      assert GAdmins(n, group) == [];
    }
  }

  // ---- Commands

  datatype Scope =
    AllScopes | InviteScope | CancelScope | KickScope | QrScope | MentionScope | FloodScope | UnknownScope

  datatype Command =
    | BootstrapCreator(inviter: Mid)
    | RegisterBot(mid: Mid)
    | AddCreator(actor: Mid, target: Mid)
    | DelCreator(actor: Mid, target: Mid)
    | AddOwner(actor: Mid, target: Mid)
    | DelOwner(actor: Mid, target: Mid)
    | AddAdmin(actor: Mid, target: Mid)
    | DelAdmin(actor: Mid, target: Mid)
    | AddGAdmin(group: Gid, actor: Mid, target: Mid)
    | DelGAdmin(group: Gid, actor: Mid, target: Mid)
    | AddBlacklist(group: Gid, actor: Mid, target: Mid)
    | Unban(group: Gid, actor: Mid, target: Mid)
    | ClearBlacklist(group: Gid, actor: Mid)
    | AutoBlacklist(group: Gid, target: Mid)
    | Restore(actor: Mid, backup: Option<State>)
    | SetLurk(group: Gid, actor: Mid, on: bool)
    | RecordReader(group: Gid, mid: Mid)
    | SetProtection(group: Gid, actor: Mid, scope: Scope, on: bool)
    | SetReservePlan(group: Gid, actor: Mid, count: int, mids: seq<Mid>)
    | UpdateWar(group: Gid, actor: Mid, update: War -> War)
    | ExpireWar(group: Gid)
    | ActivateWarAuto(group: Gid, until: int, reason: string)

  /** The common guard of the six role commands. */
  predicate MayChangeRole(s: State, group: Gid, actor: Mid, target: Mid, minimum: Role) {
    && RoleOf(s, group, actor).Rank() >= minimum.Rank()
    && target != "" && actor != target && target !in s.bots && target !in s.creators
    && RoleOf(s, group, target).Rank() < RoleOf(s, group, actor).Rank()
  }

  /** Whether the command is carried out; otherwise it is refused (or has nothing to do). */
  predicate Allowed(s: State, c: Command) {
    match c
    case BootstrapCreator(inviter) => inviter != "" && s.creators == []
    case RegisterBot(mid) => mid != "" && mid !in s.bots
    case AddCreator(actor, target) => RoleOf(s, "", actor) == Creator && target != "" && target !in s.bots
    case DelCreator(actor, target) =>
      RoleOf(s, "", actor) == Creator && actor != target && target in s.creators && |s.creators| > 1
    case AddOwner(actor, target) => MayChangeRole(s, "", actor, target, Creator)
    case DelOwner(actor, target) => MayChangeRole(s, "", actor, target, Creator)
    case AddAdmin(actor, target) => MayChangeRole(s, "", actor, target, Owner)
    case DelAdmin(actor, target) => MayChangeRole(s, "", actor, target, Owner)
    case AddGAdmin(group, actor, target) => group != "" && MayChangeRole(s, group, actor, target, Admin)
    case DelGAdmin(group, actor, target) => group != "" && MayChangeRole(s, group, actor, target, Admin)
    case AddBlacklist(group, actor, target) =>
      && RoleOf(s, group, actor).Rank() >= Admin.Rank()
      && target != "" && actor != target && target !in s.bots
      && RoleOf(s, group, target).Rank() < RoleOf(s, group, actor).Rank()
    case Unban(group, actor, target) => RoleOf(s, group, actor).Rank() >= GAdmin.Rank()
    case ClearBlacklist(group, actor) => RoleOf(s, group, actor).Rank() >= Admin.Rank() && s.blacklist != []
    case AutoBlacklist(group, target) => target != "" && target !in s.bots && RoleOf(s, group, target) == User
    case Restore(actor, backup) => RoleOf(s, "", actor) == Creator && backup.Some? && actor in backup.value.creators
    case SetLurk(group, actor, on) => RoleOf(s, group, actor).Rank() >= GAdmin.Rank()
    case RecordReader(group, mid) =>
      group in s.groups && s.groups[group].Some? && s.groups[group].value.lurk && mid != ""
      && mid !in s.groups[group].value.readers
    case SetProtection(group, actor, scope, on) => RoleOf(s, group, actor).Rank() >= Admin.Rank()
    case SetReservePlan(group, actor, count, mids) =>
      RoleOf(s, group, actor).Rank() >= Admin.Rank() && 0 <= count <= 2 && count <= |mids|
    case UpdateWar(group, actor, update) => RoleOf(s, group, actor).Rank() >= Owner.Rank()
    case ExpireWar(group) =>
      group in s.groups && s.groups[group].Some? && s.groups[group].value.war.Some?
        && s.groups[group].value.war.value.enabled
    case ActivateWarAuto(group, until, reason) => true
  }

  function RoomOf(s: State, group: Gid): Room {
    if group in s.groups && s.groups[group].Some? then s.groups[group].value else EMPTY_ROOM
  }

  function WithRoom(s: State, group: Gid, room: Room): State { s.(groups := s.groups[group := Some(room)]) }

  function WarOf(s: State, group: Gid): War {
    if RoomOf(s, group).war.Some? then RoomOf(s, group).war.value else DEFAULT_WAR
  }

  function ProtectionOf(s: State, group: Gid): Protection {
    if RoomOf(s, group).protection.Some? then RoomOf(s, group).protection.value else NO_PROTECTION
  }

  function Protect(p: Protection, scope: Scope, on: bool): Protection {
    match scope
    case AllScopes => p.(invite := on, cancel := on, kick := on, qr := on)
    case InviteScope => p.(invite := on)
    case CancelScope => p.(cancel := on)
    case KickScope => p.(kick := on)
    case QrScope => p.(qr := on)
    case MentionScope => p.(all := on)
    case FloodScope => p.(flood := on)
    case UnknownScope => p
  }

  function Effect(s: State, c: Command): State {
    match c
    case BootstrapCreator(inviter) => Normalized(s.(creators := [inviter]))
    case RegisterBot(mid) => Normalized(s.(bots := s.bots + [mid]))
    case AddCreator(_, target) => Normalized(s.(creators := AppendUnique(s.creators, target)))
    case DelCreator(_, target) => s.(creators := Without(s.creators, target))
    case AddOwner(_, target) => Normalized(s.(owners := AppendUnique(s.owners, target)))
    case DelOwner(_, target) => Normalized(s.(owners := Without(s.owners, target)))
    case AddAdmin(_, target) => Normalized(s.(admins := AppendUnique(s.admins, target)))
    case DelAdmin(_, target) => Normalized(s.(admins := Without(s.admins, target)))
    case AddGAdmin(group, _, target) =>
      Normalized(WithRoom(s, group, RoomOf(s, group).(gadmins := AppendUnique(GAdmins(s, group), target))))
    case DelGAdmin(group, _, target) =>
      Normalized(WithRoom(s, group, RoomOf(s, group).(gadmins := Without(GAdmins(s, group), target))))
    case AddBlacklist(_, _, target) => Normalized(s.(blacklist := AppendUnique(s.blacklist, target)))
    case Unban(_, _, target) => s.(blacklist := Without(s.blacklist, target))
    case ClearBlacklist(_, _) => s.(blacklist := [])
    case AutoBlacklist(_, target) => s.(blacklist := AppendUnique(s.blacklist, target))
    case Restore(_, backup) => if backup.Some? then Normalized(backup.value) else s
    case SetLurk(group, _, on) => WithRoom(s, group, RoomOf(s, group).(lurk := on, readers := []))
    case RecordReader(group, mid) => WithRoom(s, group, RoomOf(s, group).(readers := RoomOf(s, group).readers + [mid]))
    case SetProtection(group, _, scope, on) =>
      WithRoom(s, group, RoomOf(s, group).(protection := Some(Protect(ProtectionOf(s, group), scope, on))))
    case SetReservePlan(group, _, count, mids) =>
      if 0 <= count <= |mids|
      then WithRoom(s, group, RoomOf(s, group).(standbyCount := count, reserves := mids[..count])) else s
    case UpdateWar(group, _, update) =>
      var war := update(WarOf(s, group));
      WithRoom(s, group, RoomOf(s, group).(war := Some(war.(whitelist := Unique(war.whitelist)))))
    case ExpireWar(group) =>
      WithRoom(s, group, RoomOf(s, group).(war := Some(WarOf(s, group).(enabled := false, locked := false))))
    case ActivateWarAuto(group, until, reason) =>
      var war := WarOf(s, group);
      WithRoom(s, group, RoomOf(s, group).(war := Some(
        if !war.auto || war.enabled then war
        else war.(enabled := true, until := until, reason := reason, startedBy := "auto"))))
  }

  /** One command, carried out or refused. */
  function Apply(s: State, c: Command): State { if Allowed(s, c) then Effect(s, c) else s }

  function Run(s: State, commands: seq<Command>): State
    decreases commands
  {
    if commands == [] then s else Run(Apply(s, commands[0]), commands[1..])
  }

  // ---- The invariant over every run

  lemma RoomKeepsInv(s: State, group: Gid, room: Room)
    requires Inv(s) && room.gadmins == GAdmins(s, group)
    ensures Inv(WithRoom(s, group, room))
    ensures forall g, mid :: RoleOf(WithRoom(s, group, room), g, mid) == RoleOf(s, g, mid)
  {
    var t := WithRoom(s, group, room);
    assert GAdmins(s, group) == [] || group in s.groups;
    forall g ensures GAdmins(t, g) == GAdmins(s, g) {
    }
    assert Protected(t) == Protected(s);
  }

  lemma StepKeepsInv(s: State, c: Command)
    requires Inv(s)
    ensures Inv(Apply(s, c))
    ensures s.creators != [] ==> Apply(s, c).creators != []
  {
    hide Inv, Normalized, WithRoom;
    if Allowed(s, c) {
      match c {
        case BootstrapCreator(inviter) => NormalizedInv(s.(creators := [inviter]));
        case RegisterBot(mid) => NormalizedStep(s, s.(bots := s.bots + [mid]));
        case AddCreator(_, target) => NormalizedStep(s, s.(creators := AppendUnique(s.creators, target)));
        case DelCreator(_, target) => CreatorRemoved(s, c);
        case AddOwner(_, target) => NormalizedStep(s, s.(owners := AppendUnique(s.owners, target)));
        case DelOwner(_, target) => NormalizedStep(s, s.(owners := Without(s.owners, target)));
        case AddAdmin(_, target) => NormalizedStep(s, s.(admins := AppendUnique(s.admins, target)));
        case DelAdmin(_, target) => NormalizedStep(s, s.(admins := Without(s.admins, target)));
        case AddGAdmin(group, _, target) => NormalizedRoomStep(s, group, AppendUnique(GAdmins(s, group), target));
        case DelGAdmin(group, _, target) => NormalizedRoomStep(s, group, Without(GAdmins(s, group), target));
        case AddBlacklist(_, _, target) => NormalizedStep(s, s.(blacklist := AppendUnique(s.blacklist, target)));
        case Unban(_, _, target) => BlacklistChanged(s, Without(s.blacklist, target), c);
        case ClearBlacklist(_, _) => BlacklistChanged(s, [], c);
        case AutoBlacklist(_, target) => BlacklistChanged(s, AppendUnique(s.blacklist, target), c);
        case Restore(actor, backup) => RestoreStep(backup.value, actor);
        case _ => SettingsStep(s, c);
      }
    }
  }

  /** A list that still has a member keeps one through normalisation. */
  lemma NormalizedStep(s: State, t: State)
    requires Inv(s) && forall x | x in s.creators :: x in t.creators
    ensures Inv(Normalized(t))
    ensures s.creators != [] ==> Normalized(t).creators != []
  {
    NormalizedInv(t);
    UniqueContents(t.creators);
    if s.creators != [] {
      assert s.creators[0] in Unique(t.creators);
    }
  }

  lemma NormalizedRoomStep(s: State, group: Gid, gadmins: seq<Mid>)
    requires Inv(s)
    ensures var t := Normalized(WithRoom(s, group, RoomOf(s, group).(gadmins := gadmins)));
            Inv(t) && (s.creators != [] ==> t.creators != [])
  {
    NormalizedStep(s, WithRoom(s, group, RoomOf(s, group).(gadmins := gadmins)));
  }

  lemma RestoreStep(backup: State, actor: Mid)
    requires actor in backup.creators && actor != ""
    ensures Inv(Normalized(backup)) && Normalized(backup).creators != []
  {
    NormalizedInv(backup);
    UniqueContents(backup.creators);
    assert actor in Unique(backup.creators);
  }

  /** Removal without normalising: nothing else could have been let in. */
  lemma CreatorRemoved(s: State, c: Command)
    requires Inv(s) && c.DelCreator? && Allowed(s, c)
    ensures Inv(Effect(s, c)) && Effect(s, c).creators != []
  {
    var t := Effect(s, c);
    WithoutContents(s.creators, c.target);
    assert c.actor in t.creators;
    assert forall x | x in Protected(t) :: x in Protected(s);
    assert forall g | g in t.groups :: GAdmins(t, g) == GAdmins(s, g);
  }

  lemma BlacklistChanged(s: State, blacklist: seq<Mid>, c: Command)
    requires Inv(s) && Allowed(s, c) && (c.Unban? || c.ClearBlacklist? || c.AutoBlacklist?)
    requires blacklist == Effect(s, c).blacklist
    ensures Inv(s.(blacklist := blacklist))
  {
    var t := s.(blacklist := blacklist);
    assert Protected(t) == Protected(s);
    assert forall g | g in t.groups :: GAdmins(t, g) == GAdmins(s, g);
    match c {
      case Unban(_, _, target) => WithoutContents(s.blacklist, target);
      case ClearBlacklist(_, _) =>
      case AutoBlacklist(_, target) =>
    }
  }

  predicate IsSetting(c: Command) {
    c.SetLurk? || c.RecordReader? || c.SetProtection? || c.SetReservePlan? || c.UpdateWar? || c.ExpireWar?
      || c.ActivateWarAuto?
  }

  lemma SettingsStep(s: State, c: Command)
    requires Inv(s) && IsSetting(c) && Allowed(s, c)
    ensures Inv(Effect(s, c)) && Effect(s, c).creators == s.creators
    ensures forall g, mid :: RoleOf(Effect(s, c), g, mid) == RoleOf(s, g, mid)
  {
    var room := SettingsRoom(s, c);
    hide Inv, RoleOf, Effect, Allowed, IsSetting;
    RoomKeepsInv(s, c.group, room);
  }

  /** A settings command rewrites one group's record and leaves its GAdmin list alone. */
  lemma SettingsRoom(s: State, c: Command) returns (room: Room)
    requires IsSetting(c) && Allowed(s, c)
    ensures room.gadmins == GAdmins(s, c.group)
    ensures Effect(s, c) == s || Effect(s, c) == WithRoom(s, c.group, room)
  {
    hide Normalized, RoleOf, Unique, Protect, AppendUnique, Without;
    room := RoomOf(Effect(s, c), c.group);
    assert RoomOf(s, c.group).gadmins == GAdmins(s, c.group);
  }

  /** Whatever file the store was opened on and whichever commands followed, the invariant holds,
      and once there is a Creator there always is one. */
  lemma {:induction false} InvariantOverRuns(start: State, commands: seq<Command>)
    requires Inv(start)
    ensures Inv(Run(start, commands))
    ensures start.creators != [] ==> Run(start, commands).creators != []
    decreases commands
  {
    hide Inv, Apply;
    if commands != [] {
      StepKeepsInv(start, commands[0]);
      InvariantOverRuns(Apply(start, commands[0]), commands[1..]);
    }
  }

  lemma EveryReachableState(file: State, commands: seq<Command>)
    ensures Inv(Run(Normalized(file), commands))
  {
    hide Inv, Normalized, Run;
    NormalizedInv(file);
    InvariantOverRuns(Normalized(file), commands);
  }
}
