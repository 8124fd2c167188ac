/** What each operation of the account store does to the record found under a name, and that it does nothing to
    any other (internal/authstore/store.go). */
module AuthEffects {
  import opened Wrappers
  import opened Bytes
  import opened AuthPerms
  import opened AuthUsers
  import opened AuthInvariant
  import opened AuthRuns

  /** The record found under a name in one store is found under it in another. */
  predicate SameRecord(us: seq<User>, out: seq<User>, who: bytes) {
    && (Known(out, who) <==> Known(us, who))
    && (Known(us, who) ==> Known(out, who) && out[Find(out, who)] == us[Find(us, who)])
  }

  predicate Holds(us: seq<User>, who: bytes, u: User) {
    Known(us, who) && us[Find(us, who)] == u
  }

  lemma UnknownName(us: seq<User>, who: bytes)
    ensures !Known(us, who) <==> forall u :: u in us ==> u.username != who
  {
    if Known(us, who) {
      assert us[Find(us, who)] in us;
    } else {
      forall u | u in us ensures u.username != who {
        var i :| 0 <= i < |us| && us[i] == u;
      }
    }
  }

  // ---------- Deleting ----------

  /** What filtering does to the record of a name. */
  lemma WithoutRecord(us: seq<User>, drop: User -> bool, who: bytes)
    requires UniqueNames(us)
    ensures Known(us, who) && !drop(us[Find(us, who)]) ==> SameRecord(us, Without(us, drop), who)
    ensures !Known(us, who) || drop(us[Find(us, who)]) ==> !Known(Without(us, drop), who)
  {
    hide UniqueNames;
    var out := Without(us, drop);
    WithoutUnique(us, drop);
    UnknownName(us, who);
    UnknownName(out, who);
    forall u ensures u in out <==> u in us && !drop(u) {
      WithoutMember(us, drop, u);
    }
    if Known(us, who) {
      var u := us[Find(us, who)];
      assert u in us;
      if drop(u) {
        forall v | v in us && v.username == who ensures v == u {
          SameUser(us, v, u);
        }
      } else {
        FoundUser(out, u);
      }
    }
  }

  /** A delete removes the named user and, with a tenant, its subaccounts; every other record stays as it is, and
      with it what its user may do. */
  lemma DeleteEffects(us: seq<User>, name: bytes, who: bytes)
    requires UniqueNames(us) && DeleteError(us, name).None?
    ensures Known(us, name) && !Known(Deleted(us, name), name)
    ensures var out, tenant := Deleted(us, name), us[Find(us, name)].role.Tenant?;
            var goes := tenant && Known(us, who) && us[Find(us, who)].role.Subaccount? && us[Find(us, who)].parentTenant == name;
            && (goes ==> !Known(out, who))
            && (who != name && !goes ==> SameRecord(us, out, who))
  {
    hide UniqueNames, Without;
    var drop := GoesWith(us[Find(us, name)]);
    WithoutRecord(us, drop, name);
    WithoutRecord(us, drop, who);
  }

  lemma {:induction false} CountFirst(us: seq<User>, i: nat)
    requires i < |us| && us[i].role.Admin?
    ensures CountAdmins(us) > 1 <==> exists j :: 0 <= j < |us| && j != i && us[j].role.Admin?
  {
    hide HasAdmin;
    var rest := us[1..];
    AdminCounted(rest);
    assert HasAdmin(rest) <==> CountAdmins(rest) > 0 by {
      HasAdminMeaning(rest);
    }
    if HasAdmin(rest) {
      var u :| u in rest && u.role.Admin?;
      var k :| 0 <= k < |rest| && rest[k] == u;
      assert us[k + 1] == u;
    }
    assert forall j :: 0 < j < |us| ==> us[j] == rest[j - 1];
    if i > 0 {
      CountFirst(rest, i - 1);
      assert rest[i - 1] in rest;
      if j :| 0 <= j < |rest| && j != i - 1 && rest[j].role.Admin? {
        assert us[j + 1].role.Admin? && j + 1 != i;
      }
    }
  }

  lemma HasAdminMeaning(us: seq<User>)
    ensures HasAdmin(us) <==> CountAdmins(us) > 0
  {
  }

  /** A delete is accepted for every known user but the only admin. */
  lemma DeleteAcceptedIff(us: seq<User>, name: bytes)
    requires UniqueNames(us)
    ensures DeleteError(us, name).None? <==>
            Known(us, name) && (us[Find(us, name)].role.Admin? ==> exists u :: u in us && u.role.Admin? && u.username != name)
  {
    hide CountAdmins;
    if Known(us, name) && us[Find(us, name)].role.Admin? {
      var i := Find(us, name);
      CountFirst(us, i);
      if j :| 0 <= j < |us| && j != i && us[j].role.Admin? {
        assert us[j] in us && (if j < i then us[j].username != us[i].username else us[i].username != us[j].username);
      }
      if u :| u in us && u.role.Admin? && u.username != name {
        var j :| 0 <= j < |us| && us[j] == u;
      }
    }
  }

  /** Deleting a subaccount removes that record and no other, and only for its own tenant. */
  lemma DeleteSubaccountEffects(us: seq<User>, sub: bytes, parent: bytes, who: bytes)
    requires UniqueNames(us)
    ensures var mine := Known(us, sub) && us[Find(us, sub)].role.Subaccount? && us[Find(us, sub)].parentTenant == parent;
            var out := SubaccountDeleted(us, sub, parent);
            && (SubaccountDeleteError(us, sub, parent) == if mine then None else Some(NotFound))
            && (mine ==> !Known(out, sub)) && (!mine ==> out == us) && (who != sub ==> SameRecord(us, out, who))
  {
    hide UniqueNames, Without;
    var drop := (u: User) => u.username == sub;
    WithoutRecord(us, drop, sub);
    WithoutRecord(us, drop, who);
  }

  // ---------- Creating ----------

  lemma {:induction false} FindAppend(us: seq<User>, v: User, who: bytes)
    ensures Find(us + [v], who) == if Known(us, who) then Find(us, who) else if v.username == who then |us| else |us| + 1
  {
    var out := us + [v];
    var i := Find(out, who);
    assert forall j :: 0 <= j < |us| ==> out[j] == us[j];
    assert out[|us|] == v;
    assert Known(us, who) ==> !(i < Find(us, who)) && !(Find(us, who) < i);
  }

  /** A new user is found under its name as given, with its hash; nobody else changes. */
  lemma CreateEffects(us: seq<User>, u: User, hash: Hashing, who: bytes)
    ensures CreateError(us, u, hash).None? ==>
              && !Known(us, u.username) && hash.Some?
              && Holds(Created(us, u, hash), u.username, u.(passwordBcrypt := hash.value))
    ensures CreateError(us, u, hash).Some? ==> Created(us, u, hash) == us
    ensures who != u.username ==> SameRecord(us, Created(us, u, hash), who)
  {
    if CreateError(us, u, hash).None? {
      var v := u.(passwordBcrypt := hash.value);
      FindAppend(us, v, u.username);
      FindAppend(us, v, who);
    }
  }

  /** Creating is accepted exactly for a named admin or tenant with palaces, a working hash and a new name. */
  lemma CreateAcceptedIff(us: seq<User>, u: User, hash: Hashing)
    ensures CreateError(us, u, hash).None? <==>
            && u.username != "" && (u.role.Admin? || (u.role.Tenant? && u.palaces != []))
            && hash.Some? && forall v :: v in us ==> v.username != u.username
  {
    UnknownName(us, u.username);
  }

  /** A new subaccount belongs to its tenant, has the normalized permissions and no palaces of its own. */
  lemma CreateSubaccountEffects(us: seq<User>, u: User, parent: bytes, perms: PermMap, hash: Hashing, who: bytes)
    ensures CreateSubaccountError(us, u, parent, perms, hash).None? ==>
              && !Known(us, u.username) && hash.Some? && u.role.Subaccount?
              && Holds(SubaccountCreated(us, u, parent, perms, hash), u.username,
                       User(u.username, hash.value, Subaccount, [], parent, perms, u.mustChangePassword))
    ensures CreateSubaccountError(us, u, parent, perms, hash).Some? ==> SubaccountCreated(us, u, parent, perms, hash) == us
    ensures who != u.username ==> SameRecord(us, SubaccountCreated(us, u, parent, perms, hash), who)
  {
    hide TrimmedAll, Covers;
    if CreateSubaccountError(us, u, parent, perms, hash).None? {
      var v := User(u.username, hash.value, Subaccount, [], parent, perms, u.mustChangePassword);
      FindAppend(us, v, u.username);
      FindAppend(us, v, who);
    }
  }

  /** Which parents and permissions are accepted. */
  lemma ParentAcceptedIff(us: seq<User>, parent: bytes, perms: PermMap)
    requires UniqueNames(us)
    ensures ParentError(us, parent, perms).None? <==>
            perms != map[] && exists t :: t in us && t.username == parent && t.role.Tenant?
                                          && forall k :: k in perms ==> exists p :: p in t.palaces && Trim(p) == k
  {
    hide UniqueNames, Trim;
    UnknownName(us, parent);
    if Known(us, parent) {
      var t := us[Find(us, parent)];
      assert t in us;
      TrimmedCovers(t.palaces, perms);
      forall v | v in us && v.username == parent ensures v == t {
        SameUser(us, v, t);
      }
    }
  }

  lemma TrimmedCovers(palaces: seq<bytes>, perms: PermMap)
    ensures Covers(TrimmedAll(palaces), perms) <==> forall k :: k in perms ==> exists p :: p in palaces && Trim(p) == k
  {
    hide Trim;
    forall k ensures k in TrimmedAll(palaces) <==> exists p :: p in palaces && Trim(p) == k {
      if k in TrimmedAll(palaces) {
        var i :| 0 <= i < |palaces| && TrimmedAll(palaces)[i] == k;
        assert palaces[i] in palaces;
      }
      if p :| p in palaces && Trim(p) == k {
        var i :| 0 <= i < |palaces| && palaces[i] == p;
        assert TrimmedAll(palaces)[i] == k;
      }
    }
  }

  // ---------- Changing a record ----------

  lemma FindReplaced(us: seq<User>, i: nat, v: User, who: bytes)
    requires i < |us| && v.username == us[i].username
    ensures Find(us[i := v], who) == Find(us, who)
  {
    var out := us[i := v];
    assert forall j :: 0 <= j < |us| ==> out[j].username == us[j].username;
    var a, b := Find(out, who), Find(us, who);
    assert !(a < b) && !(b < a);
  }

  lemma Replaced(us: seq<User>, name: bytes, v: User, who: bytes)
    requires Known(us, name) && v.username == name
    ensures var out := us[Find(us, name) := v]; Holds(out, name, v) && (who != name ==> SameRecord(us, out, who))
  {
    FindReplaced(us, Find(us, name), v, name);
    FindReplaced(us, Find(us, name), v, who);
  }

  /** The record with the password an operation was given: a new hash lifts the demand to change it. */
  predicate HasPassword(u: User, v: User, password: NewPassword) {
    if password.Hashed? && password.h.Some?
    then v.passwordBcrypt == password.h.value && !v.mustChangePassword
    else v.passwordBcrypt == u.passwordBcrypt && v.mustChangePassword == u.mustChangePassword
  }

  /** An accepted update sets role, palaces and password, and drops parent and permissions; it touches nobody else. */
  lemma UpdateEffects(us: seq<User>, name: bytes, role: Role, palaces: seq<bytes>, password: NewPassword, who: bytes)
    ensures var out := Updated(us, name, role, palaces, password);
            && (UpdateRefused(us, name, role, palaces).None? ==>
                  && Known(us, name) && Known(out, name)
                  && var u, v := us[Find(us, name)], out[Find(out, name)];
                     && v.username == name && v.role == role && v.palaces == palaces
                     && v.parentTenant == "" && v.palacePerms == map[] && HasPassword(u, v, password))
            && (UpdateRefused(us, name, role, palaces).Some? ==> out == us)
            && (who != name ==> SameRecord(us, out, who))
  {
    if UpdateRefused(us, name, role, palaces).None? {
      Replaced(us, name, UpdatedUser(us[Find(us, name)], role, palaces, password), who);
    }
  }

  /** An update is refused exactly for unknown names, subaccounts, other roles and tenants without palaces. */
  lemma UpdateAcceptedIff(us: seq<User>, name: bytes, role: Role, palaces: seq<bytes>)
    ensures UpdateRefused(us, name, role, palaces).None? <==>
            && Known(us, name) && !us[Find(us, name)].role.Subaccount?
            && (role.Admin? || (role.Tenant? && palaces != []))
  {
  }

  /** An accepted change of a subaccount sets its permissions and password only. */
  lemma UpdateSubaccountEffects(us: seq<User>, sub: bytes, parent: bytes, perms: PermMap, password: NewPassword, who: bytes)
    ensures var out := SubaccountUpdated(us, sub, parent, perms, password);
            && (SubaccountUpdateRefused(us, sub, parent, perms).None? ==>
                  && Known(us, sub) && Known(out, sub)
                  && var u, v := us[Find(us, sub)], out[Find(out, sub)];
                     && u.role.Subaccount? && u.parentTenant == parent
                     && v.palacePerms == perms && HasPassword(u, v, password)
                     && v.username == sub && v.role == u.role && v.palaces == u.palaces && v.parentTenant == parent)
            && (SubaccountUpdateRefused(us, sub, parent, perms).Some? ==> out == us)
            && (who != sub ==> SameRecord(us, out, who))
  {
    hide TrimmedAll, Covers;
    if SubaccountUpdateRefused(us, sub, parent, perms).None? {
      Replaced(us, sub, WithPassword(us[Find(us, sub)].(palacePerms := perms), password), who);
    }
  }

  /** A new password stores its hash and lifts the demand to change it; a failed hash leaves the record alone. */
  lemma PasswordEffects(u: User, password: NewPassword)
    ensures var v := WithPassword(u, password);
            && HasPassword(u, v, password) && v.username == u.username && v.role == u.role && v.palaces == u.palaces
            && v.parentTenant == u.parentTenant && v.palacePerms == u.palacePerms
  {
  }

  // ---------- Pruning and patching ----------

  predicate IsTenantsSub(u: User, tenant: bytes) {
    u.role.Subaccount? && u.parentTenant == tenant
  }

  /** A record narrowed to some palaces: it keeps the permissions at those and loses the others. */
  ghost predicate IsNarrowed(u: User, v: User, allowed: seq<bytes>) {
    && v == u.(palacePerms := v.palacePerms)
    && (forall k :: k in v.palacePerms <==> k in u.palacePerms && k != "" && k in allowed)
    && forall k :: k in v.palacePerms ==> v.palacePerms[k] == u.palacePerms[k]
  }

  /** Pruning that succeeds narrows every subaccount of the tenant and touches nobody else. */
  lemma PruneEffects(us: seq<User>, tenant: bytes, allowed: seq<bytes>, i: nat)
    requires i < |us| && Pruned(us, tenant, allowed).err.None?
    ensures var v := Pruned(us, tenant, allowed).us[i];
            if IsTenantsSub(us[i], tenant) then IsNarrowed(us[i], v, allowed) else v == us[i]
  {
    hide Pruned;
    PrunedAt(us, tenant, allowed, i);
  }

  /** A subaccount that would lose all it has. */
  predicate Stranded(u: User, tenant: bytes, allowed: seq<bytes>) {
    IsTenantsSub(u, tenant) && u.palacePerms != map[] && forall k :: k in u.palacePerms ==> k == "" || k !in allowed
  }

  lemma StrandedLoses(u: User, tenant: bytes, allowed: seq<bytes>)
    ensures LosesAll(u, tenant, allowed) <==> Stranded(u, tenant, allowed)
  {
    if Stranded(u, tenant, allowed) {
      assert Narrowed(u.palacePerms, allowed) == map[];
    }
    if LosesAll(u, tenant, allowed) {
      forall k | k in u.palacePerms ensures k == "" || k !in allowed {
        assert k !in Narrowed(u.palacePerms, allowed);
      }
    }
  }

  /** Pruning fails exactly when some subaccount would lose everything; it names the first and stops there. */
  lemma {:induction false} PruneStops(us: seq<User>, tenant: bytes, allowed: seq<bytes>) returns (n: nat)
    ensures n <= |us| && (n < |us| ==> Stranded(us[n], tenant, allowed))
    ensures forall i :: 0 <= i < n ==> !Stranded(us[i], tenant, allowed)
    ensures var r := Pruned(us, tenant, allowed);
            && r.err == (if n < |us| then Some(WouldLosePalaces(us[n].username)) else None)
            && (forall i :: n <= i < |us| ==> r.us[i] == us[i])
            && (forall i :: 0 <= i < n ==>
                  if IsTenantsSub(us[i], tenant) then IsNarrowed(us[i], r.us[i], allowed) else r.us[i] == us[i])
  {
    hide LosesAll, Stranded;
    if us == [] {
      n := 0;
    } else {
      StrandedLoses(us[0], tenant, allowed);
      if LosesAll(us[0], tenant, allowed) {
        n := 0;
      } else {
        var rest := us[1..];
        assert forall i :: 1 <= i < |us| ==> us[i] == rest[i - 1];
        n := PruneStops(rest, tenant, allowed);
        n := n + 1;
      }
    }
  }

  /** The store an accepted patch updates: pruned first when a tenant gets new palaces. */
  function BeforeUpdate(us: seq<User>, name: bytes, palaces: Option<seq<bytes>>): (r: seq<User>)
    requires Known(us, name)
    ensures |r| == |us|
  {
    if us[Find(us, name)].role.Tenant? && palaces.Some? then Pruned(us, name, palaces.value).us else us
  }

  lemma PatchSteps(us: seq<User>, name: bytes, role: Option<Role>, palaces: Option<seq<bytes>>, password: NewPassword)
    requires PatchError(us, name, role, palaces, password).None?
    ensures Known(us, name)
    ensures var k := Find(us, name);
            var r := if role.Some? then role.value else us[k].role;
            var ps := if palaces.Some? then palaces.value else us[k].palaces;
            && Patched(us, name, role, palaces, password) == Updated(BeforeUpdate(us, name, palaces), name, r, ps, password)
            && UpdateRefused(BeforeUpdate(us, name, palaces), name, r, ps).None?
            && (us[k].role.Tenant? && palaces.Some? ==> Pruned(us, name, palaces.value).err.None?)
  {
    hide Pruned, Updated, UpdateRefused;
  }

  lemma BeforeUpdateAt(us: seq<User>, name: bytes, palaces: Option<seq<bytes>>, i: nat)
    requires Known(us, name) && i < |us|
    requires us[Find(us, name)].role.Tenant? && palaces.Some? ==> Pruned(us, name, palaces.value).err.None?
    ensures var k, b := Find(us, name), BeforeUpdate(us, name, palaces);
            && Find(b, name) == k
            && if us[k].role.Tenant? && palaces.Some? && IsTenantsSub(us[i], name)
               then IsNarrowed(us[i], b[i], palaces.value)
               else b[i] == us[i]
  {
    hide Pruned, IsNarrowed;
    if us[Find(us, name)].role.Tenant? && palaces.Some? {
      PruneFinds(us, name, palaces.value, name);
      PruneEffects(us, name, palaces.value, i);
    }
  }

  /** An accepted patch sets what it names and keeps the rest of the record; a tenant's new palaces narrow its
      subaccounts, and nobody else changes. */
  lemma PatchEffects(us: seq<User>, name: bytes, role: Option<Role>, palaces: Option<seq<bytes>>, password: NewPassword, i: nat)
    requires PatchError(us, name, role, palaces, password).None? && i < |us|
    ensures Known(us, name)
    ensures var out, k := Patched(us, name, role, palaces, password), Find(us, name);
            && out[k].username == name
            && out[k].role == (if role.Some? then role.value else us[k].role)
            && out[k].palaces == (if palaces.Some? then palaces.value else us[k].palaces)
            && HasPassword(us[k], out[k], password)
            && (i != k ==>
                  if us[k].role.Tenant? && palaces.Some? && IsTenantsSub(us[i], name)
                  then IsNarrowed(us[i], out[i], palaces.value)
                  else out[i] == us[i])
  {
    hide Pruned, IsNarrowed, Patched, PatchError, BeforeUpdate;
    PatchSteps(us, name, role, palaces, password);
    BeforeUpdateAt(us, name, palaces, i);
    BeforeUpdateAt(us, name, palaces, Find(us, name));
  }

  /** A refused patch reports its reason and changes nothing, unless pruning stopped it half way. */
  lemma PatchRefused(us: seq<User>, name: bytes, role: Option<Role>, palaces: Option<seq<bytes>>, password: NewPassword)
    requires !Known(us, name) || us[Find(us, name)].role.Subaccount? || (role.Some? && !role.value.Admin? && !role.value.Tenant?)
    ensures Patched(us, name, role, palaces, password) == us && PatchError(us, name, role, palaces, password).Some?
  {
  }
}
