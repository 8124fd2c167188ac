/** The account store (internal/authstore/store.go): every operation works in place on the list of
    users. Saving to disk is left out; hashing is a parameter. */
module AuthStore {
  import opened Wrappers
  import opened Bytes
  import opened AuthPerms
  import opened AuthUsers

  class Store {
    var users: seq<User>

    constructor ()
      ensures users == []
    {
      users := [];
    }

    method Get(username: bytes) returns (u: Option<User>)
      ensures u == if Known(users, username) then Some(users[Find(users, username)]) else None
    {
      var i := FindIndex(username);
      if i < |users| {
        return Some(users[i]);
      }
      return None;
    }

    /** The index loop of the update and delete operations. */
    method FindIndex(username: bytes) returns (idx: nat)
      ensures idx == Find(users, username)
    {
      idx := 0;
      while idx < |users| && users[idx].username != username
        invariant 0 <= idx <= |users|
        invariant forall j :: 0 <= j < idx ==> users[j].username != username
      {
        idx := idx + 1;
      }
      FindIs(users, username, idx);
    }

    static lemma FindIs(us: seq<User>, name: bytes, i: nat)
      requires i <= |us| && (i < |us| ==> us[i].username == name)
      requires forall j :: 0 <= j < i ==> us[j].username != name
      ensures Find(us, name) == i
    {
      var k := Find(us, name);
      assert !(k < i) && !(i < k);
    }

    method SetPassword(username: bytes, hash: Hashing) returns (err: Outcome)
      modifies this
      ensures err == if hash.None? then Some(HashFailed) else if !Known(old(users), username) then Some(NotFound) else None
      ensures users == if err.Some? then old(users)
                       else old(users)[Find(old(users), username) :=
                              WithPassword(old(users)[Find(old(users), username)], Hashed(hash))]
    {
      if hash.None? {
        return Some(HashFailed);
      }
      var i := FindIndex(username);
      if i == |users| {
        return Some(NotFound);
      }
      users := users[i := users[i].(passwordBcrypt := hash.value, mustChangePassword := false)];
      return None;
    }

    method Create(u: User, hash: Hashing) returns (err: Outcome)
      modifies this
      ensures err == CreateError(old(users), u, hash)
      ensures users == Created(old(users), u, hash)
    {
      if u.username == "" {
        return Some(UsernameRequired);
      }
      if u.role.Subaccount? {
        return Some(UseCreateSubaccount);
      }
      if !u.role.Admin? && !u.role.Tenant? {
        return Some(InvalidRole);
      }
      if u.role.Tenant? && |u.palaces| == 0 {
        return Some(TenantPalaces);
      }
      if hash.None? {
        return Some(HashFailed);
      }
      var i := FindIndex(u.username);
      if i < |users| {
        return Some(UserExists);
      }
      users := users + [u.(passwordBcrypt := hash.value)];
      return None;
    }

    method Update(username: bytes, role: Role, palaces: seq<bytes>, password: NewPassword) returns (err: Outcome)
      modifies this
      ensures err == UpdateError(old(users), username, role, palaces, password)
      ensures users == Updated(old(users), username, role, palaces, password)
    {
      var idx := FindIndex(username);
      if idx == |users| {
        return Some(NotFound);
      }
      if users[idx].role.Subaccount? {
        return Some(CannotUpdateSubaccount);
      }
      if !role.Admin? && !role.Tenant? {
        return Some(InvalidRole);
      }
      if role.Tenant? && |palaces| == 0 {
        return Some(TenantPalaces);
      }
      users := users[idx := users[idx].(role := role)];
      users := users[idx := users[idx].(palaces := palaces)];
      users := users[idx := users[idx].(parentTenant := "")];
      users := users[idx := users[idx].(palacePerms := map[])];
      if password.Hashed? {
        if password.h.None? {
          return Some(HashFailed);
        }
        users := users[idx := users[idx].(passwordBcrypt := password.h.value)];
        users := users[idx := users[idx].(mustChangePassword := false)];
      }
      return None;
    }

    method CreateSubaccount(u: User, parentTenant: bytes, hash: Hashing) returns (err: Outcome)
      modifies this
      ensures exists perms :: IsNormal(u.palacePerms, perms)
                && err == CreateSubaccountError(old(users), u, parentTenant, perms, hash)
                && users == SubaccountCreated(old(users), u, parentTenant, perms, hash)
    {
      hide IsNormal, NormList, Covers;
      var perms := NormalizePalacePerms(u.palacePerms);
      NormalIsSettled(u.palacePerms, perms);
      if u.username == "" {
        return Some(UsernameRequired);
      }
      if !u.role.Subaccount? {
        return Some(RoleMustBeSubaccount);
      }
      err := CheckParent(parentTenant, perms);
      if err.Some? {
        return;
      }
      if hash.None? {
        return Some(HashFailed);
      }
      var i := FindIndex(u.username);
      if i < |users| {
        return Some(UserExists);
      }
      users := users + [u.(passwordBcrypt := hash.value, parentTenant := parentTenant, palacePerms := perms, palaces := [])];
      return None;
    }

    /** The parent must be a tenant and hold every palace of the permissions. */
    method CheckParent(parentTenant: bytes, perms: PermMap) returns (err: Outcome)
      requires Settled(perms)
      ensures err == ParentError(users, parentTenant, perms)
    {
      hide Settled, Covers;
      var parent := Get(parentTenant);
      if parent.None? || !parent.value.role.Tenant? {
        return Some(SubaccountParent);
      }
      var r := ValidateSubaccountPalacePerms(parent.value.palaces, perms);
      SettledVerdict(parent.value.palaces, perms, r);
      match r
      case Invalid(NoPalaces) => return Some(SubaccountPalaces);
      case Invalid(NotParentPalace(_)) => return Some(PalaceNotOfParent);
      case Valid => return None;
    }

    method UpdateSubaccount(subUsername: bytes, parentTenant: bytes, palacePerms: PermMap, password: NewPassword)
      returns (err: Outcome)
      modifies this
      ensures exists perms :: IsNormal(palacePerms, perms)
                && err == SubaccountUpdateError(old(users), subUsername, parentTenant, perms, password)
                && users == SubaccountUpdated(old(users), subUsername, parentTenant, perms, password)
    {
      hide IsNormal, NormList, Covers;
      var perms := NormalizePalacePerms(palacePerms);
      NormalIsSettled(palacePerms, perms);
      var idx := FindIndex(subUsername);
      if idx == |users| || !users[idx].role.Subaccount? || users[idx].parentTenant != parentTenant {
        return Some(NotFound);
      }
      err := CheckParent(parentTenant, perms);
      if err.Some? {
        return;
      }
      users := users[idx := users[idx].(palacePerms := perms)];
      if password.Hashed? {
        if password.h.None? {
          return Some(HashFailed);
        }
        users := users[idx := users[idx].(passwordBcrypt := password.h.value)];
        users := users[idx := users[idx].(mustChangePassword := false)];
      }
      return None;
    }

    method DeleteSubaccount(subUsername: bytes, parentTenant: bytes) returns (err: Outcome)
      modifies this
      ensures err == SubaccountDeleteError(old(users), subUsername, parentTenant)
      ensures users == SubaccountDeleted(old(users), subUsername, parentTenant)
    {
      var idx := FindIndex(subUsername);
      if idx == |users| || !users[idx].role.Subaccount? || users[idx].parentTenant != parentTenant {
        return Some(NotFound);
      }
      ghost var drop := (u: User) => u.username == subUsername;
      var filtered: seq<User> := [];
      for i := 0 to |users|
        invariant users == old(users)
        invariant filtered == Without(users[..i], drop)
      {
        var u := users[i];
        assert users[..i + 1] == users[..i] + [u];
        WithoutAppend(users[..i], u, drop);
        if u.username != subUsername {
          filtered := filtered + [u];
        }
      }
      assert users[..|users|] == users;
      users := filtered;
      return None;
    }

    method Delete(username: bytes) returns (err: Outcome)
      modifies this
      ensures err == DeleteError(old(users), username)
      ensures users == Deleted(old(users), username)
    {
      var adminCount := 0;
      for i := 0 to |users|
        invariant users == old(users) && adminCount + CountAdmins(users[i..]) == CountAdmins(users)
      {
        assert users[i..][1..] == users[i + 1..];
        if users[i].role.Admin? {
          adminCount := adminCount + 1;
        }
      }
      var idx := FindIndex(username);
      if idx == |users| {
        return Some(NotFound);
      }
      var target := users[idx];
      if target.role.Admin? && adminCount <= 1 {
        return Some(LastAdmin);
      }
      ghost var drop := GoesWith(target);
      var filtered: seq<User> := [];
      for i := 0 to |users|
        invariant users == old(users)
        invariant filtered == Without(users[..i], drop)
      {
        var u := users[i];
        assert users[..i + 1] == users[..i] + [u];
        WithoutAppend(users[..i], u, drop);
        if u.username == username {
          continue;
        }
        if target.role.Tenant? && u.role.Subaccount? && u.parentTenant == username {
          continue;
        }
        filtered := filtered + [u];
      }
      assert users[..|users|] == users;
      users := filtered;
      return None;
    }

    method RenamePalaceInTenantBindings(oldName: bytes, newName: bytes)
      modifies this
      ensures users == Renamed(old(users), oldName, newName)
    {
      if oldName == "" || newName == "" || oldName == newName {
        return;
      }
      ghost var was := users;
      for i := 0 to |users|
        invariant |users| == |was|
        invariant forall k :: 0 <= k < i ==> users[k] == RenamedUser(was[k], oldName, newName)
        invariant forall k :: i <= k < |was| ==> users[k] == was[k]
      {
        RenameAt(i, oldName, newName);
      }
    }

    method RenameAt(i: nat, oldName: bytes, newName: bytes)
      requires i < |users| && oldName != newName
      modifies this
      ensures users == old(users)[i := RenamedUser(old(users)[i], oldName, newName)]
    {
      ghost var u := users[i];
      if users[i].role.Tenant? {
        for j := 0 to |users[i].palaces|
          invariant |users| == |old(users)| && users == old(users)[i := u.(palaces := users[i].palaces)]
          invariant |users[i].palaces| == |u.palaces|
          invariant forall k :: 0 <= k < j ==> users[i].palaces[k] == RenamedName(u.palaces[k], oldName, newName)
          invariant forall k :: j <= k < |u.palaces| ==> users[i].palaces[k] == u.palaces[k]
        {
          if users[i].palaces[j] == oldName {
            users := users[i := users[i].(palaces := users[i].palaces[j := newName])];
          }
        }
        assert users[i].palaces == RenamedPalaces(u.palaces, oldName, newName);
      }
      if users[i].role.Subaccount? {
        if oldName in users[i].palacePerms {
          var perms := users[i].palacePerms[oldName];
          users := users[i := users[i].(palacePerms := users[i].palacePerms - {oldName})];
          users := users[i := users[i].(palacePerms := users[i].palacePerms[newName := perms])];
        }
      }
      assert users == old(users)[i := users[i]];
    }

    static method FilterPalaceNameOut(palaces: seq<bytes>, name: bytes) returns (out: seq<bytes>)
      ensures out == FilteredOut(palaces, name)
    {
      out := [];
      for i := 0 to |palaces|
        invariant out + FilteredOut(palaces[i..], name) == FilteredOut(palaces, name)
      {
        assert palaces[i..][1..] == palaces[i + 1..];
        if palaces[i] != "" && palaces[i] != name {
          out := out + [palaces[i]];
        }
      }
    }

    method RemovePalaceAfterPermanentDelete(palaceName: bytes)
      modifies this
      ensures Purged(old(users), palaceName, users)
    {
      hide Trim, FilteredOut, IsNormal, Within;
      var name := Trim(palaceName);
      if name == "" {
        return;
      }
      var tenantPalacesAfter: Holdings := map[];
      for i := 0 to |users|
        invariant users == old(users) && tenantPalacesAfter == HoldingsAfter(users[..i], name)
      {
        var u := users[i];
        assert users[..i + 1][..i] == users[..i];
        if !u.role.Tenant? {
          continue;
        }
        var fp := FilterPalaceNameOut(u.palaces, name);
        if |fp| > 0 {
          tenantPalacesAfter := tenantPalacesAfter[u.username := fp];
        }
      }
      assert users[..|users|] == users;
      var out: seq<User> := [];
      ghost var picks: seq<Option<User>> := [];
      for i := 0 to |users|
        invariant users == old(users) && |picks| == i && out == Somes(picks)
        invariant forall k :: 0 <= k < i ==> PurgedOf(tenantPalacesAfter, users[k], picks[k])
      {
        var r := PurgeUser(tenantPalacesAfter, users[i]);
        ghost var before := picks;
        picks := picks + [r];
        assert picks[..i] == before;
        if r.Some? {
          out := out + [r.value];
        }
      }
      assert PurgePicks(users, palaceName, picks);
      users := out;
    }

    static lemma SubaccountPurged(h: Holdings, u: User, norm: PermMap, left: PermMap)
      requires u.role.Subaccount? && u.parentTenant in h
      requires IsNormal(u.palacePerms, norm) && IsNormal(Within(norm, h[u.parentTenant]), left)
      ensures PurgedOf(h, u, Remaining(u, left))
    {
      hide IsNormal, Within, Remaining;
      assert NarrowedBy(u, h[u.parentTenant], norm, left);
    }

    /** One turn of the purge's second loop. */
    static method PurgeUser(tenantPalacesAfter: Holdings, u: User) returns (r: Option<User>)
      ensures PurgedOf(tenantPalacesAfter, u, r)
    {
      hide IsNormal;
      match u.role
      case Admin => return Some(u);
      case OtherRole(_) => return Some(u);
      case Tenant =>
        if u.username !in tenantPalacesAfter {
          return None;
        }
        return Some(u.(palaces := tenantPalacesAfter[u.username]));
      case Subaccount =>
        if u.parentTenant !in tenantPalacesAfter {
          return None;
        }
        var parentPalaces := tenantPalacesAfter[u.parentTenant];
        var pm := NormalizePalacePerms(u.palacePerms);
        var newMap: PermMap := map[];
        var todo := pm.Keys;
        while todo != {}
          invariant todo <= pm.Keys
          invariant forall k :: k in newMap <==> k !in todo && k in Within(pm, parentPalaces)
          invariant forall k :: k in newMap ==> newMap[k] == pm[k]
          decreases |todo|
        {
          var k :| k in todo;
          todo := todo - {k};
          if k == "" || k !in parentPalaces {
            continue;
          }
          if |pm[k]| == 0 {
            continue;
          }
          newMap := newMap[k := pm[k]];
        }
        assert newMap == Within(pm, parentPalaces);
        var npm := NormalizePalacePerms(newMap);
        SubaccountPurged(tenantPalacesAfter, u, pm, npm);
        if |npm| == 0 {
          return None;
        }
        return Some(u.(palacePerms := npm));
    }

    method PruneSubaccountPalacesForTenant(tenantUsername: bytes, allowedPalaces: seq<bytes>) returns (err: Outcome)
      modifies this
      ensures Pruning(users, err) == Pruned(old(users), tenantUsername, allowedPalaces)
    {
      hide PrunedUser, LosesAll, Pruned;
      ghost var was := users;
      for i := 0 to |users|
        invariant |users| == |was| && users[i..] == was[i..]
        invariant PruningFrom(was, users[..i], i, tenantUsername, allowedPalaces)
      {
        ghost var before := users;
        PruneStep(was, users[..i], i, tenantUsername, allowedPalaces);
        assert users[i] == users[i..][0] == was[i];
        err := PruneAt(i, tenantUsername, allowedPalaces);
        if err.Some? {
          assert before[..i] + was[i..] == users;
          return;
        }
        assert users[..i + 1] == before[..i] + [users[i]];
      }
      PruneEnds(was, users, tenantUsername, allowedPalaces);
      return None;
    }

    /** The walk so far and the rest of it make the whole walk. */
    static ghost predicate PruningFrom(was: seq<User>, done: seq<User>, i: nat, tenant: bytes, allowed: seq<bytes>)
      requires i <= |was|
    {
      var rest := Pruned(was[i..], tenant, allowed);
      Pruned(was, tenant, allowed) == Pruning(done + rest.us, rest.err)
    }

    static lemma PruneStep(was: seq<User>, done: seq<User>, i: nat, tenant: bytes, allowed: seq<bytes>)
      requires i < |was| && PruningFrom(was, done, i, tenant, allowed)
      ensures LosesAll(was[i], tenant, allowed) ==>
                Pruned(was, tenant, allowed) == Pruning(done + was[i..], Some(WouldLosePalaces(was[i].username)))
      ensures !LosesAll(was[i], tenant, allowed) ==>
                PruningFrom(was, done + [PrunedUser(was[i], tenant, allowed)], i + 1, tenant, allowed)
    {
      hide LosesAll, PrunedUser;
      assert was[i..][0] == was[i] && was[i..][1..] == was[i + 1..];
      var rest := Pruned(was[i + 1..], tenant, allowed);
      assert done + ([PrunedUser(was[i], tenant, allowed)] + rest.us) == done + [PrunedUser(was[i], tenant, allowed)] + rest.us;
    }

    static lemma PruneEnds(was: seq<User>, done: seq<User>, tenant: bytes, allowed: seq<bytes>)
      requires |done| == |was| && PruningFrom(was, done[..|was|], |was|, tenant, allowed)
      ensures Pruned(was, tenant, allowed) == Pruning(done, None)
    {
      assert was[|was|..] == [] && done[..|was|] + [] == done;
    }

    /** One turn of the prune loop. */
    method PruneAt(i: nat, tenantUsername: bytes, allowedPalaces: seq<bytes>) returns (err: Outcome)
      requires i < |users|
      modifies this
      ensures var u := old(users)[i];
              if LosesAll(u, tenantUsername, allowedPalaces)
              then users == old(users) && err == Some(WouldLosePalaces(u.username))
              else users == old(users)[i := PrunedUser(u, tenantUsername, allowedPalaces)] && err == None
    {
      hide Narrowed;
      if !users[i].role.Subaccount? || users[i].parentTenant != tenantUsername {
        return None;
      }
      var m := users[i].palacePerms;
      if |m| == 0 {
        NarrowedNothing(allowedPalaces);
        return None;
      }
      var newMap := Narrowing(m, allowedPalaces);
      if |newMap| == 0 {
        return Some(WouldLosePalaces(users[i].username));
      }
      users := users[i := users[i].(palacePerms := newMap)];
      return None;
    }

    static lemma NarrowedNothing(allowed: seq<bytes>)
      ensures Narrowed(map[], allowed) == map[]
    {
    }

    /** The map the prune loop builds for one subaccount. */
    static method Narrowing(m: PermMap, allowedPalaces: seq<bytes>) returns (newMap: PermMap)
      ensures newMap == Narrowed(m, allowedPalaces)
    {
      newMap := map[];
      var todo := m.Keys;
      while todo != {}
        invariant todo <= m.Keys
        invariant forall k :: k in newMap <==> k !in todo && k in Narrowed(m, allowedPalaces)
        invariant forall k :: k in newMap ==> newMap[k] == m[k]
        decreases |todo|
      {
        var k :| k in todo;
        todo := todo - {k};
        if k != "" && k in allowedPalaces {
          newMap := newMap[k := m[k]];
        }
      }
    }

    /** handleUserPatch (internal/api/handlers_session.go), after the request was read. */
    method PatchUser(name: bytes, role: Option<Role>, palaces: Option<seq<bytes>>, password: NewPassword)
      returns (err: Outcome)
      modifies this
      ensures err == PatchError(old(users), name, role, palaces, password)
      ensures users == Patched(old(users), name, role, palaces, password)
    {
      hide Updated, Pruned, UpdateError;
      if role.Some? && !role.value.Admin? && !role.value.Tenant? {
        return Some(InvalidRole);
      }
      var u := Get(name);
      if u.None? {
        return Some(NotFound);
      }
      if u.value.role.Subaccount? {
        return Some(CannotUpdateSubaccount);
      }
      var newRole := if role.Some? then role.value else u.value.role;
      var newPalaces := if palaces.Some? then palaces.value else u.value.palaces;
      if u.value.role.Tenant? && palaces.Some? {
        err := PruneSubaccountPalacesForTenant(name, newPalaces);
        if err.Some? {
          return;
        }
      }
      err := Update(name, newRole, newPalaces, password);
    }
  }
}
