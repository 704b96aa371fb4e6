/** The guard store as the code runs it. Every mutator leaves exactly the state module GuardState
    says, keeps the invariant, and reports success only if it was allowed and the save succeeded;
    a failed save does not undo the change. */
module GuardStore {
  import opened Options
  import opened Lists
  import opened GuardState

  method RemoveMany(values: seq<Mid>, targets: seq<Mid>) returns (result: seq<Mid>)
    ensures result == WithoutAll(values, targets)
  {
    result := values;
    for i := 0 to |targets|
      invariant WithoutAll(result, targets[i..]) == WithoutAll(values, targets)
    {
      assert targets[i..][1..] == targets[i + 1..];
      result := Without(result, targets[i]);
    }
  }

  class Store {
    var state: State

    ghost predicate Valid()
      reads this
    {
      Inv(state)
    }

    /** Opening: an absent file is the empty state, anything else is normalised. */
    constructor (file: Option<State>)
      ensures Valid()
      ensures state == if file.Some? then Normalized(file.value) else State([], [], [], [], [], map[])
    {
      state := if file.Some? then file.value else State([], [], [], [], [], map[]);
      new;
      if file.Some? {
        Normalize();
        NormalizedInv(file.value);
      }
    }

    method Normalize()
      modifies this
      ensures state == Normalized(old(state))
    {
      hide Unique, WithoutAll;
      var bots := UniqueOf(state.bots);
      var creators := UniqueOf(state.creators);
      var owners := UniqueOf(state.owners);
      owners := RemoveMany(owners, creators);
      var admins := UniqueOf(state.admins);
      admins := RemoveMany(admins, owners + creators);
      var protected := bots + owners + admins + creators;
      var blacklist := UniqueOf(state.blacklist);
      blacklist := RemoveMany(blacklist, protected);
      var groups, todo := state.groups, state.groups.Keys;
      while todo != {}
        invariant todo <= groups.Keys == old(state).groups.Keys
        invariant forall g | g in groups ::
          groups[g] == if g in todo then old(state).groups[g] else NormalRoom(old(state).groups[g], protected)
        decreases todo
      {
        var g :| g in todo;
        if groups[g].Some? {
          var gadmins := UniqueOf(groups[g].value.gadmins);
          gadmins := RemoveMany(gadmins, protected);
          groups := groups[g := Some(groups[g].value.(gadmins := gadmins))];
        }
        todo := todo - {g};
      }
      state := State(creators, owners, admins, blacklist, bots, groups);
    }

    method BootstrapCreator(inviter: Mid, saved: bool) returns (created: bool, ok: bool)
      requires Valid()
      modifies this
      ensures Valid() && state == Apply(old(state), Command.BootstrapCreator(inviter))
      ensures created == Allowed(old(state), Command.BootstrapCreator(inviter))
      ensures ok == (inviter != "" && (created ==> saved))
    {
      hide Inv, Normalized;
      StepKeepsInv(state, Command.BootstrapCreator(inviter));
      if inviter == "" {
        return false, false;
      }
      if |state.creators| != 0 {
        return false, true;
      }
      state := state.(creators := [inviter]);
      Normalize();
      return true, saved;
    }

    method RegisterBot(mid: Mid, saved: bool) returns (ok: bool)
      requires Valid()
      modifies this
      ensures Valid() && state == Apply(old(state), Command.RegisterBot(mid))
      ensures ok == (mid == "" || mid in old(state).bots || saved)
      ensures mid != "" ==> mid in state.bots
    {
      hide Inv;
      StepKeepsInv(state, Command.RegisterBot(mid));
      if mid == "" || mid in state.bots {
        return true;
      }
      UniqueContents(state.bots + [mid]);
      state := state.(bots := state.bots + [mid]);
      Normalize();
      return saved;
    }

    method AddCreator(actor: Mid, target: Mid, saved: bool) returns (ok: bool)
      requires Valid()
      modifies this
      ensures Valid() && state == Apply(old(state), Command.AddCreator(actor, target))
      ensures ok == (Allowed(old(state), Command.AddCreator(actor, target)) && saved)
    {
      hide Inv, Normalized;
      StepKeepsInv(state, Command.AddCreator(actor, target));
      if RoleOf(state, "", actor) != Creator || target == "" || target in state.bots {
        return false;
      }
      state := state.(creators := AppendUnique(state.creators, target));
      Normalize();
      return saved;
    }

    /** The only role command that does not normalise. */
    method DelCreator(actor: Mid, target: Mid, saved: bool) returns (ok: bool)
      requires Valid()
      modifies this
      ensures Valid() && state == Apply(old(state), Command.DelCreator(actor, target))
      ensures ok == (Allowed(old(state), Command.DelCreator(actor, target)) && saved)
    {
      hide Inv, Normalized;
      StepKeepsInv(state, Command.DelCreator(actor, target));
      if RoleOf(state, "", actor) != Creator {
        return false;
      }
      if actor == target || target !in state.creators || |state.creators| <= 1 {
        return false;
      }
      state := state.(creators := Without(state.creators, target));
      return saved;
    }

    /** The frame the other role commands share: check, change, normalise, save. */
    method MutateRole(group: Gid, actor: Mid, target: Mid, minimum: Role, change: State -> State, saved: bool)
      returns (ok: bool)
      modifies this
      ensures state == if MayChangeRole(old(state), group, actor, target, minimum)
                       then Normalized(change(old(state))) else old(state)
      ensures ok == (MayChangeRole(old(state), group, actor, target, minimum) && saved)
    {
      var actorRole, targetRole := RoleOf(state, group, actor), RoleOf(state, group, target);
      if actorRole.Rank() < minimum.Rank() {
        return false;
      }
      if target == "" || actor == target || target in state.bots || target in state.creators {
        return false;
      }
      if targetRole.Rank() >= actorRole.Rank() {
        return false;
      }
      state := change(state);
      Normalize();
      return saved;
    }

    method AddOwner(actor: Mid, target: Mid, saved: bool) returns (ok: bool)
      requires Valid()
      modifies this
      ensures Valid() && state == Apply(old(state), Command.AddOwner(actor, target))
      ensures ok == (Allowed(old(state), Command.AddOwner(actor, target)) && saved)
    {
      hide Inv, Normalized;
      StepKeepsInv(state, Command.AddOwner(actor, target));
      ok := MutateRole("", actor, target, Creator, (s: State) => s.(owners := AppendUnique(s.owners, target)), saved);
    }

    method DelOwner(actor: Mid, target: Mid, saved: bool) returns (ok: bool)
      requires Valid()
      modifies this
      ensures Valid() && state == Apply(old(state), Command.DelOwner(actor, target))
      ensures ok == (Allowed(old(state), Command.DelOwner(actor, target)) && saved)
    {
      hide Inv, Normalized;
      StepKeepsInv(state, Command.DelOwner(actor, target));
      ok := MutateRole("", actor, target, Creator, (s: State) => s.(owners := Without(s.owners, target)), saved);
    }

    method AddAdmin(actor: Mid, target: Mid, saved: bool) returns (ok: bool)
      requires Valid()
      modifies this
      ensures Valid() && state == Apply(old(state), Command.AddAdmin(actor, target))
      ensures ok == (Allowed(old(state), Command.AddAdmin(actor, target)) && saved)
    {
      hide Inv, Normalized;
      StepKeepsInv(state, Command.AddAdmin(actor, target));
      ok := MutateRole("", actor, target, Owner, (s: State) => s.(admins := AppendUnique(s.admins, target)), saved);
    }

    method DelAdmin(actor: Mid, target: Mid, saved: bool) returns (ok: bool)
      requires Valid()
      modifies this
      ensures Valid() && state == Apply(old(state), Command.DelAdmin(actor, target))
      ensures ok == (Allowed(old(state), Command.DelAdmin(actor, target)) && saved)
    {
      hide Inv, Normalized;
      StepKeepsInv(state, Command.DelAdmin(actor, target));
      ok := MutateRole("", actor, target, Owner, (s: State) => s.(admins := Without(s.admins, target)), saved);
    }

    method AddGAdmin(group: Gid, actor: Mid, target: Mid, saved: bool) returns (ok: bool)
      requires Valid()
      modifies this
      ensures Valid() && state == Apply(old(state), Command.AddGAdmin(group, actor, target))
      ensures ok == (Allowed(old(state), Command.AddGAdmin(group, actor, target)) && saved)
    {
      hide Inv, Normalized;
      StepKeepsInv(state, Command.AddGAdmin(group, actor, target));
      if group == "" {
        return false;
      }
      ok := MutateRole(group, actor, target, Admin,
        (s: State) => WithRoom(s, group, RoomOf(s, group).(gadmins := AppendUnique(GAdmins(s, group), target))), saved);
    }

    method DelGAdmin(group: Gid, actor: Mid, target: Mid, saved: bool) returns (ok: bool)
      requires Valid()
      modifies this
      ensures Valid() && state == Apply(old(state), Command.DelGAdmin(group, actor, target))
      ensures ok == (Allowed(old(state), Command.DelGAdmin(group, actor, target)) && saved)
    {
      hide Inv, Normalized;
      StepKeepsInv(state, Command.DelGAdmin(group, actor, target));
      if group == "" {
        return false;
      }
      ok := MutateRole(group, actor, target, Admin,
        (s: State) => WithRoom(s, group, RoomOf(s, group).(gadmins := Without(GAdmins(s, group), target))), saved);
    }

    method AddBlacklist(group: Gid, actor: Mid, target: Mid, saved: bool) returns (ok: bool)
      requires Valid()
      modifies this
      ensures Valid() && state == Apply(old(state), Command.AddBlacklist(group, actor, target))
      ensures ok == (Allowed(old(state), Command.AddBlacklist(group, actor, target)) && saved)
    {
      hide Inv, Normalized;
      StepKeepsInv(state, Command.AddBlacklist(group, actor, target));
      var actorRole, targetRole := RoleOf(state, group, actor), RoleOf(state, group, target);
      if actorRole.Rank() < Admin.Rank() {
        return false;
      }
      if target == "" || actor == target || target in state.bots || targetRole.Rank() >= actorRole.Rank() {
        return false;
      }
      state := state.(blacklist := AppendUnique(state.blacklist, target));
      Normalize();
      return saved;
    }

    method Unban(group: Gid, actor: Mid, target: Mid, saved: bool) returns (ok: bool)
      requires Valid()
      modifies this
      ensures Valid() && state == Apply(old(state), Command.Unban(group, actor, target))
      ensures ok == (Allowed(old(state), Command.Unban(group, actor, target)) && saved)
    {
      hide Inv, Normalized;
      StepKeepsInv(state, Command.Unban(group, actor, target));
      if RoleOf(state, group, actor).Rank() < GAdmin.Rank() {
        return false;
      }
      state := state.(blacklist := Without(state.blacklist, target));
      return saved;
    }

    method ClearBlacklist(group: Gid, actor: Mid, saved: bool) returns (removed: nat, ok: bool)
      requires Valid()
      modifies this
      ensures Valid() && state == Apply(old(state), Command.ClearBlacklist(group, actor))
      ensures removed == |old(state).blacklist| - |state.blacklist|
      ensures ok == (RoleOf(old(state), group, actor).Rank() >= Admin.Rank() && (old(state).blacklist == [] || saved))
    {
      hide Inv, Normalized;
      StepKeepsInv(state, Command.ClearBlacklist(group, actor));
      if RoleOf(state, group, actor).Rank() < Admin.Rank() {
        return 0, false;
      }
      removed := |state.blacklist|;
      if removed == 0 {
        return 0, true;
      }
      state := state.(blacklist := []);
      return removed, saved;
    }

    method AutoBlacklist(group: Gid, target: Mid, saved: bool) returns (ok: bool)
      requires Valid()
      modifies this
      ensures Valid() && state == Apply(old(state), Command.AutoBlacklist(group, target))
      ensures ok == (Allowed(old(state), Command.AutoBlacklist(group, target)) && saved)
    {
      hide Inv, Normalized;
      StepKeepsInv(state, Command.AutoBlacklist(group, target));
      if target == "" || target in state.bots || RoleOf(state, group, target) != User {
        return false;
      }
      state := state.(blacklist := AppendUnique(state.blacklist, target));
      return saved;
    }

    method Restore(actor: Mid, backup: Option<State>, saved: bool) returns (ok: bool)
      requires Valid()
      modifies this
      ensures Valid() && state == Apply(old(state), Command.Restore(actor, backup))
      ensures ok == (Allowed(old(state), Command.Restore(actor, backup)) && saved)
    {
      hide Inv, Normalized;
      StepKeepsInv(state, Command.Restore(actor, backup));
      if RoleOf(state, "", actor) != Creator || backup.None? || actor !in backup.value.creators {
        return false;
      }
      state := backup.value;
      Normalize();
      return saved;
    }

    method SetLurk(group: Gid, actor: Mid, on: bool, saved: bool) returns (ok: bool)
      requires Valid()
      modifies this
      ensures Valid() && state == Apply(old(state), Command.SetLurk(group, actor, on))
      ensures ok == (Allowed(old(state), Command.SetLurk(group, actor, on)) && saved)
    {
      hide Inv, Normalized;
      StepKeepsInv(state, Command.SetLurk(group, actor, on));
      if RoleOf(state, group, actor).Rank() < GAdmin.Rank() {
        return false;
      }
      state := WithRoom(state, group, RoomOf(state, group).(lurk := on, readers := []));
      return saved;
    }

    method RecordReader(group: Gid, mid: Mid) returns (recorded: bool)
      requires Valid()
      modifies this
      ensures Valid() && state == Apply(old(state), Command.RecordReader(group, mid))
      ensures recorded == Allowed(old(state), Command.RecordReader(group, mid))
    {
      hide Inv, Normalized;
      StepKeepsInv(state, Command.RecordReader(group, mid));
      if group !in state.groups || state.groups[group].None? {
        return false;
      }
      var room := state.groups[group].value;
      if !room.lurk || mid == "" || mid in room.readers {
        return false;
      }
      state := WithRoom(state, group, room.(readers := room.readers + [mid]));
      return true;
    }

    /** An unknown scope is refused after the room's protection record has been created. */
    method SetProtection(group: Gid, actor: Mid, scope: Scope, on: bool, saved: bool) returns (ok: bool)
      requires Valid()
      modifies this
      ensures Valid() && state == Apply(old(state), Command.SetProtection(group, actor, scope, on))
      ensures ok == (Allowed(old(state), Command.SetProtection(group, actor, scope, on))
                     && !scope.UnknownScope? && saved)
    {
      hide Inv, Normalized;
      StepKeepsInv(state, Command.SetProtection(group, actor, scope, on));
      if RoleOf(state, group, actor).Rank() < Admin.Rank() {
        return false;
      }
      var room := RoomOf(state, group);
      var protection := if room.protection.Some? then room.protection.value else NO_PROTECTION;
      state := WithRoom(state, group, room.(protection := Some(Protect(protection, scope, on))));
      return !scope.UnknownScope? && saved;
    }

    method SetReservePlan(group: Gid, actor: Mid, count: int, mids: seq<Mid>, saved: bool) returns (ok: bool)
      requires Valid()
      modifies this
      ensures Valid() && state == Apply(old(state), Command.SetReservePlan(group, actor, count, mids))
      ensures ok == (Allowed(old(state), Command.SetReservePlan(group, actor, count, mids)) && saved)
    {
      hide Inv, Normalized;
      StepKeepsInv(state, Command.SetReservePlan(group, actor, count, mids));
      if RoleOf(state, group, actor).Rank() < Admin.Rank() {
        return false;
      }
      if count < 0 || count > 2 || |mids| < count {
        return false;
      }
      state := WithRoom(state, group, RoomOf(state, group).(standbyCount := count, reserves := mids[..count]));
      return saved;
    }

    method UpdateWar(group: Gid, actor: Mid, update: War -> War, saved: bool) returns (ok: bool)
      requires Valid()
      modifies this
      ensures Valid() && state == Apply(old(state), Command.UpdateWar(group, actor, update))
      ensures ok == (Allowed(old(state), Command.UpdateWar(group, actor, update)) && saved)
    {
      hide Inv, Normalized;
      StepKeepsInv(state, Command.UpdateWar(group, actor, update));
      if RoleOf(state, group, actor).Rank() < Owner.Rank() {
        return false;
      }
      var war := update(WarOf(state, group));
      var whitelist := UniqueOf(war.whitelist);
      state := WithRoom(state, group, RoomOf(state, group).(war := Some(war.(whitelist := whitelist))));
      return saved;
    }

    method ExpireWar(group: Gid)
      requires Valid()
      modifies this
      ensures Valid() && state == Apply(old(state), Command.ExpireWar(group))
    {
      hide Inv, Normalized;
      StepKeepsInv(state, Command.ExpireWar(group));
      if group in state.groups && state.groups[group].Some? {
        var room := state.groups[group].value;
        if room.war.Some? && room.war.value.enabled {
          state := WithRoom(state, group, room.(war := Some(room.war.value.(enabled := false, locked := false))));
        }
      }
    }

    method ActivateWarAuto(group: Gid, until: int, reason: string, saved: bool) returns (ok: bool)
      requires Valid()
      modifies this
      ensures Valid() && state == Apply(old(state), Command.ActivateWarAuto(group, until, reason))
      ensures var war := WarOf(old(state), group); ok == (!war.auto || war.enabled || saved)
    {
      hide Inv, Normalized;
      StepKeepsInv(state, Command.ActivateWarAuto(group, until, reason));
      var war := WarOf(state, group);
      if !war.auto || war.enabled {
        state := WithRoom(state, group, RoomOf(state, group).(war := Some(war)));
        return true;
      }
      state := WithRoom(state, group, RoomOf(state, group).(war := Some(
        war.(enabled := true, until := until, reason := reason, startedBy := "auto"))));
      return saved;
    }
  }
}
