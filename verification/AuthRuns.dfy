/** Whole runs of the account store: pruning and patching a tenant, and the invariant over every
    sequence of operations (internal/authstore/store.go, internal/api/handlers_session.go). */
module AuthRuns {
  import opened Wrappers
  import opened Bytes
  import opened AuthPerms
  import opened AuthUsers
  import opened AuthInvariant
  import AuthPurge
  import AuthRename

  // ---------- Pruning ----------

  /** Each user is narrowed or left as it was; without an error every user is narrowed. */
  lemma {:induction false} PrunedAt(us: seq<User>, tenant: bytes, allowed: seq<bytes>, i: nat)
    requires i < |us|
    ensures var r := Pruned(us, tenant, allowed);
            && (r.us[i] == us[i] || (r.us[i] == PrunedUser(us[i], tenant, allowed) && !LosesAll(us[i], tenant, allowed)))
            && (r.err.None? ==> r.us[i] == PrunedUser(us[i], tenant, allowed))
  {
    hide PrunedUser, LosesAll;
    if !LosesAll(us[0], tenant, allowed) && i > 0 {
      assert us[1..][i - 1] == us[i];
      PrunedAt(us[1..], tenant, allowed, i - 1);
    }
  }

  lemma PrunedUserKeeps(us: seq<User>, u: User, tenant: bytes, allowed: seq<bytes>)
    requires SubWithin(us, u) && UserClean(u) && !LosesAll(u, tenant, allowed)
    ensures var v := PrunedUser(u, tenant, allowed);
            && v.username == u.username && v.role == u.role && UserClean(v)
            && (u.role.Tenant? ==> v == u) && (u.role.Subaccount? ==> v.palacePerms != map[])
            && (forall t :: IsParent(t, u) ==> IsParent(t, v))
            && (IsSubOf(u, tenant) ==> Covers(allowed, v.palacePerms))
  {
    hide Trim, NormList;
  }

  /** Pruning keeps the invariant even when it stops with an error half way. */
  lemma PruneKeepsInv(us: seq<User>, tenant: bytes, allowed: seq<bytes>)
    requires Inv(us)
    ensures Inv(Pruned(us, tenant, allowed).us)
  {
    hide UserClean, Covers, PrunedUser, LosesAll, IsParent, Pruned;
    var out := Pruned(us, tenant, allowed).us;
    forall i | 0 <= i < |us|
      ensures out[i].username == us[i].username && (us[i].role.Tenant? ==> out[i] == us[i])
      ensures UserClean(out[i]) && out[i].role == us[i].role && (us[i].role.Subaccount? ==> out[i].palacePerms != map[])
      ensures forall t :: IsParent(t, us[i]) ==> IsParent(t, out[i])
    {
      assert us[i] in us && SubWithin(us, us[i]) && UserClean(us[i]);
      PrunedAt(us, tenant, allowed, i);
      if out[i] != us[i] {
        PrunedUserKeeps(us, us[i], tenant, allowed);
      }
    }
    forall v | v in out ensures SubWithin(out, v) && UserClean(v) {
      var i :| 0 <= i < |out| && out[i] == v;
      assert us[i] in us && SubWithin(us, us[i]);
      if v.role.Subaccount? {
        var t :| t in us && IsParent(t, us[i]);
        var j :| 0 <= j < |us| && us[j] == t;
        ParentIsTenant(t, us[i]);
        assert out[j] == t && t in out;
      }
    }
  }

  lemma ParentIsTenant(t: User, u: User)
    requires IsParent(t, u)
    ensures t.role.Tenant?
  {
  }

  /** A successful prune leaves every subaccount of the tenant within the allowed palaces. */
  lemma PruneCovers(us: seq<User>, tenant: bytes, allowed: seq<bytes>, role: Role)
    requires Inv(us) && Pruned(us, tenant, allowed).err.None? && role.Tenant?
    ensures CoversSubs(Pruned(us, tenant, allowed).us, tenant, role, allowed)
  {
    hide Trim, NormList, Pruned, UserClean;
    var out := Pruned(us, tenant, allowed).us;
    forall u | u in out && IsSubOf(u, tenant) ensures Covers(allowed, u.palacePerms) {
      var i :| 0 <= i < |out| && out[i] == u;
      PrunedAt(us, tenant, allowed, i);
    }
  }

  lemma PruneFinds(us: seq<User>, tenant: bytes, allowed: seq<bytes>, name: bytes)
    ensures var out := Pruned(us, tenant, allowed).us;
            Find(out, name) == Find(us, name) && (Known(us, name) ==> out[Find(us, name)].role == us[Find(us, name)].role)
  {
    hide Pruned;
    var out := Pruned(us, tenant, allowed).us;
    forall i | 0 <= i < |us| ensures out[i].username == us[i].username && out[i].role == us[i].role {
      PrunedAt(us, tenant, allowed, i);
    }
    var k, i := Find(out, name), Find(us, name);
    assert !(k < i) && !(i < k);
  }

  // ---------- Patching ----------

  /** The patches a run may contain: a tenant stays a tenant and an admin stays an admin. */
  predicate PatchOk(us: seq<User>, name: bytes, role: Option<Role>, palaces: Option<seq<bytes>>) {
    && (palaces.Some? ==> NamesClean(palaces.value))
    && (Known(us, name) ==> KeepsRole(us[Find(us, name)], role, palaces))
  }

  predicate KeepsRole(u: User, role: Option<Role>, palaces: Option<seq<bytes>>) {
    && (role.Some? && (u.role.Tenant? || u.role.Admin?) ==> role.value == u.role)
    && (u.role.OtherRole? && palaces.None? ==> NamesClean(u.palaces))
  }

  lemma UpdateInPlaceKeeps(us: seq<User>, name: bytes, role: Role, palaces: seq<bytes>, password: NewPassword)
    requires Inv(us) && (role.Tenant? ==> NamesClean(palaces)) && CoversSubs(us, name, role, palaces)
    ensures Inv(Updated(us, name, role, palaces, password))
  {
    hide Inv, NamesClean, CoversSubs;
    if UpdateRefused(us, name, role, palaces).None? {
      UpdateKeepsInvIff(us, name, role, palaces, password);
    }
  }

  /** Prune-then-update keeps the invariant when a tenant stays a tenant, also when the prune fails. */
  lemma PatchKeepsInv(us: seq<User>, name: bytes, role: Option<Role>, palaces: Option<seq<bytes>>, password: NewPassword)
    requires Inv(us) && PatchOk(us, name, role, palaces)
    ensures Inv(Patched(us, name, role, palaces, password))
  {
    hide Trim, Settled, Pruned, Updated, Covers, SubsWithin, UniqueNames, UserClean, NamesClean;
    if Known(us, name) && !us[Find(us, name)].role.Subaccount? {
      var u := us[Find(us, name)];
      var newRole := if role.Some? then role.value else u.role;
      var newPalaces := if palaces.Some? then palaces.value else u.palaces;
      if u.role.Tenant? && palaces.Some? {
        PruneKeepsInv(us, name, newPalaces);
        if Pruned(us, name, newPalaces).err.None? {
          PruneCovers(us, name, newPalaces, newRole);
          UpdateInPlaceKeeps(Pruned(us, name, newPalaces).us, name, newRole, newPalaces, password);
        }
      } else {
        PlainPatchCovers(us, name, newRole, palaces);
        UpdateInPlaceKeeps(us, name, newRole, newPalaces, password);
      }
    }
  }

  /** A patch that needs no pruning. */
  predicate PlainPatch(u: User, newRole: Role, palaces: Option<seq<bytes>>) {
    && (u.role.Tenant? ==> newRole.Tenant? && palaces.None?)
    && (u.role.Admin? ==> newRole.Admin?)
    && (u.role.OtherRole? && palaces.None? ==> NamesClean(u.palaces))
    && !u.role.Subaccount?
  }

  lemma PlainPatchCovers(us: seq<User>, name: bytes, newRole: Role, palaces: Option<seq<bytes>>)
    requires Inv(us) && Known(us, name) && (palaces.Some? ==> NamesClean(palaces.value))
    requires PlainPatch(us[Find(us, name)], newRole, palaces)
    ensures var newPalaces := if palaces.Some? then palaces.value else us[Find(us, name)].palaces;
            CoversSubs(us, name, newRole, newPalaces) && (newRole.Tenant? ==> NamesClean(newPalaces))
  {
    hide Trim, Settled, Covers, NamesClean;
    var u := us[Find(us, name)];
    assert u in us && UserClean(u);
    forall v | v in us ensures IsSubOf(v, name) ==> u.role.Tenant? && Covers(u.palaces, v.palacePerms) {
      if IsSubOf(v, name) {
        ParentOf(us, u, v);
      }
    }
  }

  // ---------- Admins ----------

  lemma {:induction false} AdminCounted(us: seq<User>)
    ensures HasAdmin(us) <==> exists u :: u in us && u.role.Admin?
  {
    if us != [] {
      assert us == [us[0]] + us[1..];
      AdminCounted(us[1..]);
      if us[0].role.Admin? {
        assert us[0] in us;
      }
    }
  }

  lemma {:induction false} NoAdminDropped(us: seq<User>, drop: User -> bool)
    requires forall u :: u in us && drop(u) ==> !u.role.Admin?
    ensures CountAdmins(Without(us, drop)) == CountAdmins(us)
  {
    if us != [] {
      assert us == [us[0]] + us[1..];
      NoAdminDropped(us[1..], drop);
      if !drop(us[0]) {
        assert ([us[0]] + Without(us[1..], drop))[1..] == Without(us[1..], drop);
      }
    }
  }

  /** Deleting drops at most one admin. */
  lemma {:induction false} OneAdminDropped(us: seq<User>, drop: User -> bool, name: bytes)
    requires UniqueNames(us) && forall u :: u in us && drop(u) && u.role.Admin? ==> u.username == name
    ensures CountAdmins(Without(us, drop)) >= CountAdmins(us) - 1
  {
    hide UniqueNames;
    if us != [] {
      var rest := us[1..];
      assert us == [us[0]] + rest;
      TailUnique(us);
      if drop(us[0]) && us[0].role.Admin? {
        NoAdminDropped(rest, drop);
      } else {
        OneAdminDropped(rest, drop, name);
        if !drop(us[0]) {
          assert ([us[0]] + Without(rest, drop))[1..] == Without(rest, drop);
        }
      }
    }
  }

  lemma TailUnique(us: seq<User>)
    requires UniqueNames(us) && us != []
    ensures UniqueNames(us[1..]) && forall u :: u in us[1..] ==> u.username != us[0].username
  {
    forall u | u in us[1..] ensures u.username != us[0].username {
      var i :| 0 <= i < |us[1..]| && us[1..][i] == u;
      assert us[i + 1] == u;
    }
  }

  /** The last admin cannot be deleted. */
  lemma DeleteKeepsAdmin(us: seq<User>, name: bytes)
    requires UniqueNames(us) && HasAdmin(us)
    ensures HasAdmin(Deleted(us, name))
  {
    hide UniqueNames, CountAdmins;
    if DeleteError(us, name).None? {
      var target := us[Find(us, name)];
      if target.role.Admin? {
        forall u | u in us && GoesWith(target)(u) && u.role.Admin? ensures u.username == name {
        }
        OneAdminDropped(us, GoesWith(target), name);
      } else {
        forall u | u in us && GoesWith(target)(u) ensures !u.role.Admin? {
          if u.username == target.username {
            SameUser(us, u, target);
          }
        }
        NoAdminDropped(us, GoesWith(target));
      }
    }
  }

  /** Update does not count admins: an accepted update of a store with an admin leaves one exactly when
      it makes the user an admin or another admin is there. */
  lemma UpdateAdminIff(us: seq<User>, name: bytes, role: Role, palaces: seq<bytes>, password: NewPassword)
    requires UniqueNames(us) && UpdateRefused(us, name, role, palaces).None?
    ensures HasAdmin(Updated(us, name, role, palaces, password)) <==>
            role.Admin? || exists u :: u in us && u.role.Admin? && u.username != name
  {
    hide HasAdmin;
    var out, i := Updated(us, name, role, palaces, password), Find(us, name);
    AdminCounted(out);
    assert out[i] in out && us[i] in us;
    if HasAdmin(out) && !role.Admin? {
      var v :| v in out && v.role.Admin?;
      var j :| 0 <= j < |out| && out[j] == v;
      assert j != i && us[j] == v;
      assert if j < i then us[j].username != us[i].username else us[i].username != us[j].username;
    }
    if u :| u in us && u.role.Admin? && u.username != name {
      var j :| 0 <= j < |us| && us[j] == u;
      assert out[j] == u;
    }
  }

  /** The only admin, made a tenant. */
  lemma UpdateDropsAdmin()
    ensures var us := [User("r", "", Admin, [], "", map[], false)];
            && HasAdmin(us) && UpdateRefused(us, "r", Tenant, ["a"]) == None
            && !HasAdmin(Updated(us, "r", Tenant, ["a"], Unchanged))
  {
    var r := User("r", "", Admin, [], "", map[], false);
    assert Find([r], "r") == 0 && [r][1..] == [];
    var v := UpdatedUser(r, Tenant, ["a"], Unchanged);
    assert Updated([r], "r", Tenant, ["a"], Unchanged) == [v] && [v][1..] == [];
  }

  // ---------- Runs ----------

  datatype Op =
    | DoCreate(u: User, hash: Hashing)
    | DoCreateSubaccount(sub: User, parent: bytes, hash: Hashing)
    | DoUpdateSubaccount(subName: bytes, parent: bytes, perms: PermMap, password: NewPassword)
    | DoSetPassword(name: bytes, password: NewPassword)
    | DoDelete(name: bytes)
    | DoDeleteSubaccount(subName: bytes, parent: bytes)
    | DoRename(o: bytes, n: bytes)
    | DoPurge(palace: bytes)
    | DoPatch(name: bytes, role: Option<Role>, palaces: Option<seq<bytes>>, password: NewPassword)

  /** Palace names are given trimmed, and a patch keeps tenants tenants and admins admins. */
  predicate Allowed(us: seq<User>, op: Op) {
    match op
    case DoCreate(u, _) => u.role.Tenant? ==> NamesClean(u.palaces)
    case DoRename(_, n) => Trim(n) == n
    case DoPatch(name, role, palaces, _) => PatchOk(us, name, role, palaces)
    case _ => true
  }

  ghost predicate Step(us: seq<User>, op: Op, out: seq<User>) {
    match op
    case DoCreate(u, hash) => out == Created(us, u, hash)
    case DoCreateSubaccount(u, parent, hash) =>
      exists perms :: IsNormal(u.palacePerms, perms) && out == SubaccountCreated(us, u, parent, perms, hash)
    case DoUpdateSubaccount(sub, parent, given, password) =>
      exists perms :: IsNormal(given, perms) && out == SubaccountUpdated(us, sub, parent, perms, password)
    case DoSetPassword(name, password) =>
      out == if Known(us, name) then us[Find(us, name) := WithPassword(us[Find(us, name)], password)] else us
    case DoDelete(name) => out == Deleted(us, name)
    case DoDeleteSubaccount(sub, parent) => out == SubaccountDeleted(us, sub, parent)
    case DoRename(o, n) => out == Renamed(us, o, n)
    case DoPurge(p) => Purged(us, p, out)
    case DoPatch(name, role, palaces, password) => out == Patched(us, name, role, palaces, password)
  }

  lemma StepKeepsInv(us: seq<User>, op: Op, out: seq<User>)
    requires Inv(us) && Allowed(us, op) && Step(us, op, out)
    ensures Inv(out)
  {
    hide Inv, Trim, IsNormal, NamesClean, Created, SubaccountCreated, SubaccountUpdated, Deleted, SubaccountDeleted;
    hide Renamed, Purged, Patched, Settled, WithPassword;
    match op
    case DoCreate(u, hash) => CreateKeepsInv(us, u, hash);
    case DoCreateSubaccount(u, parent, hash) =>
      var perms :| IsNormal(u.palacePerms, perms) && out == SubaccountCreated(us, u, parent, perms, hash);
      NormalIsSettled(u.palacePerms, perms);
      CreateSubaccountKeepsInv(us, u, parent, perms, hash);
    case DoUpdateSubaccount(sub, parent, given, password) =>
      var perms :| IsNormal(given, perms) && out == SubaccountUpdated(us, sub, parent, perms, password);
      NormalIsSettled(given, perms);
      UpdateSubaccountKeepsInv(us, sub, parent, perms, password);
    case DoSetPassword(name, password) =>
      if Known(us, name) {
        SetPasswordKeepsInv(us, Find(us, name), password);
      }
    case DoDelete(name) => DeleteKeepsInv(us, name);
    case DoDeleteSubaccount(sub, parent) => DeleteSubaccountKeepsInv(us, sub, parent);
    case DoRename(o, n) => AuthRename.RenameKeepsInv(us, o, n);
    case DoPurge(p) => AuthPurge.PurgeKeepsInv(us, p, out);
    case DoPatch(name, role, palaces, password) => PatchKeepsInv(us, name, role, palaces, password);
  }

  /** Some record of an admin survives as an admin. */
  lemma AdminSurvives(us: seq<User>, out: seq<User>)
    requires HasAdmin(us) && forall u :: u in us && u.role.Admin? ==> exists v :: v in out && v.role.Admin?
    ensures HasAdmin(out)
  {
    hide HasAdmin;
    AdminCounted(us);
    AdminCounted(out);
  }

  lemma AdminsInPlace(us: seq<User>, out: seq<User>)
    requires HasAdmin(us) && |out| >= |us| && forall i :: 0 <= i < |us| && us[i].role.Admin? ==> out[i].role.Admin?
    ensures HasAdmin(out)
  {
    hide HasAdmin;
    forall u | u in us && u.role.Admin? ensures exists v :: v in out && v.role.Admin? {
      var i :| 0 <= i < |us| && us[i] == u;
      assert out[i] in out;
    }
    AdminSurvives(us, out);
  }

  lemma PurgeKeepsAdmin(us: seq<User>, p: bytes, out: seq<User>)
    requires HasAdmin(us) && Purged(us, p, out)
    ensures HasAdmin(out)
  {
    hide HasAdmin, HoldingsAfter, Trim;
    if Trim(p) != "" {
      var picks :| PurgePicks(us, p, picks) && out == Somes(picks);
      forall u | u in us && u.role.Admin? ensures exists v :: v in out && v.role.Admin? {
        var i :| 0 <= i < |us| && us[i] == u;
        assert picks[i] == Some(u);
        AuthPurge.SomesMember(picks, u);
      }
      AdminSurvives(us, out);
    }
  }

  lemma DeleteSubaccountKeepsAdmin(us: seq<User>, sub: bytes, parent: bytes)
    requires UniqueNames(us) && HasAdmin(us)
    ensures HasAdmin(SubaccountDeleted(us, sub, parent))
  {
    hide CountAdmins, UniqueNames;
    if SubaccountDeleteError(us, sub, parent).None? {
      var drop := (u: User) => u.username == sub;
      forall u | u in us && drop(u) ensures !u.role.Admin? {
        SameUser(us, u, us[Find(us, sub)]);
      }
      NoAdminDropped(us, drop);
    }
  }

  lemma PatchKeepsAdmin(us: seq<User>, name: bytes, role: Option<Role>, palaces: Option<seq<bytes>>, password: NewPassword)
    requires UniqueNames(us) && HasAdmin(us) && PatchOk(us, name, role, palaces)
    ensures HasAdmin(Patched(us, name, role, palaces, password))
  {
    hide HasAdmin, UniqueNames, Pruned, NamesClean;
    var out := Patched(us, name, role, palaces, password);
    if Known(us, name) && palaces.Some? {
      PruneFinds(us, name, palaces.value, name);
      forall i | 0 <= i < |us| ensures Pruned(us, name, palaces.value).us[i].role == us[i].role {
        PrunedAt(us, name, palaces.value, i);
      }
    }
    AdminsInPlace(us, out);
  }

  lemma StepKeepsAdmin(us: seq<User>, op: Op, out: seq<User>)
    requires UniqueNames(us) && HasAdmin(us) && Allowed(us, op) && Step(us, op, out)
    ensures HasAdmin(out)
  {
    hide HasAdmin, UniqueNames, IsNormal, Trim, Deleted, SubaccountDeleted, Patched, Purged, PatchOk;
    match op
    case DoDelete(name) => DeleteKeepsAdmin(us, name);
    case DoDeleteSubaccount(sub, parent) => DeleteSubaccountKeepsAdmin(us, sub, parent);
    case DoPurge(p) => PurgeKeepsAdmin(us, p, out);
    case DoPatch(name, role, palaces, password) => PatchKeepsAdmin(us, name, role, palaces, password);
    case DoCreate(_, _) => AdminsInPlace(us, out);
    case DoCreateSubaccount(_, _, _) => AdminsInPlace(us, out);
    case DoUpdateSubaccount(_, _, _, _) => AdminsInPlace(us, out);
    case DoSetPassword(_, _) => AdminsInPlace(us, out);
    case DoRename(_, _) => AdminsInPlace(us, out);
  }

  ghost predicate Run(states: seq<seq<User>>, ops: seq<Op>) {
    && |states| == |ops| + 1
    && forall i :: 0 <= i < |ops| ==> Allowed(states[i], ops[i]) && Step(states[i], ops[i], states[i + 1])
  }

  /** In every run from a store that satisfies the invariant, every state satisfies it, and a store
      that had an admin never loses its last one. */
  lemma {:induction false} RunKeepsInv(states: seq<seq<User>>, ops: seq<Op>, i: nat)
    requires Run(states, ops) && Inv(states[0]) && i < |states|
    ensures Inv(states[i]) && (HasAdmin(states[0]) ==> HasAdmin(states[i]))
    decreases i
  {
    hide Inv, HasAdmin, Allowed, Step;
    if i > 0 {
      RunKeepsInv(states, ops, i - 1);
      StepKeepsInv(states[i - 1], ops[i - 1], states[i]);
      AuthPurge.InvUnique(states[i - 1]);
      if HasAdmin(states[0]) {
        StepKeepsAdmin(states[i - 1], ops[i - 1], states[i]);
      }
    }
  }

  /** The empty store satisfies the invariant. */
  lemma EmptyInv()
    ensures Inv([])
  {
  }

  /** Whatever is done to a new store, its invariant holds. */
  lemma RunFromEmpty(states: seq<seq<User>>, ops: seq<Op>, i: nat)
    requires Run(states, ops) && states[0] == [] && i < |states|
    ensures Inv(states[i])
  {
    hide Inv, Run;
    EmptyInv();
    RunKeepsInv(states, ops, i);
  }
}
