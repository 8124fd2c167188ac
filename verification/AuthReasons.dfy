/** Which error each operation of the account store reports: the first of its checks that fails, in the
    source's order. */
module AuthReasons {
  import opened Wrappers
  import opened Bytes
  import opened AuthPerms
  import opened AuthUsers
  import opened AuthEffects
  import opened AuthRuns

  datatype Check = Check(fails: bool, reason: StoreError)

  /** The reason is that of a failed check before which no other fails; without a failed check there is none. */
  ghost predicate FirstFailed(checks: seq<Check>, err: Outcome) {
    if err.None? then forall i :: 0 <= i < |checks| ==> !checks[i].fails
    else exists i :: 0 <= i < |checks| && checks[i].fails && err.value == checks[i].reason
                     && forall j :: 0 <= j < i ==> !checks[j].fails
  }

  predicate Is(us: seq<User>, name: bytes, role: Role) {
    Known(us, name) && us[Find(us, name)].role == role
  }

  predicate IsSubaccountOf(us: seq<User>, name: bytes, tenant: bytes) {
    Is(us, name, Subaccount) && us[Find(us, name)].parentTenant == tenant
  }

  /** A tenant has, up to white space, every palace asked for. */
  ghost predicate HasAll(us: seq<User>, tenant: bytes, perms: PermMap) {
    Known(us, tenant) && forall k :: k in perms ==> exists p :: p in us[Find(us, tenant)].palaces && Trim(p) == k
  }

  ghost function ParentChecks(us: seq<User>, parent: bytes, perms: PermMap): seq<Check> {
    [Check(!Is(us, parent, Tenant), SubaccountParent), Check(perms == map[], SubaccountPalaces),
     Check(!HasAll(us, parent, perms), PalaceNotOfParent)]
  }

  lemma FirstOf(checks: seq<Check>, err: Outcome, i: nat)
    requires i <= |checks| && forall j :: 0 <= j < i ==> !checks[j].fails
    requires if i < |checks| then checks[i].fails && err == Some(checks[i].reason) else err == None
    ensures FirstFailed(checks, err)
  {
  }

  /** Some check among the first n fails, or none does. */
  lemma {:induction false} FirstExists(checks: seq<Check>, n: nat) returns (i: nat)
    requires n <= |checks| && forall j :: 0 <= j < n ==> !checks[j].fails
    ensures n <= i <= |checks| && (i < |checks| ==> checks[i].fails) && forall j :: 0 <= j < i ==> !checks[j].fails
    decreases |checks| - n
  {
    i := n;
    if n < |checks| && !checks[n].fails {
      i := FirstExists(checks, n + 1);
    }
  }

  /** A new user is refused for the first of these reasons. */
  lemma CreateReason(us: seq<User>, u: User, hash: Hashing)
    ensures FirstFailed(
              [Check(u.username == "", UsernameRequired), Check(u.role == Subaccount, UseCreateSubaccount),
               Check(u.role != Admin && u.role != Tenant, InvalidRole),
               Check(u.role == Tenant && u.palaces == [], TenantPalaces),
               Check(hash == None, HashFailed), Check(Known(us, u.username), UserExists)],
              CreateError(us, u, hash))
  {
    hide Find;
    var checks := [Check(u.username == "", UsernameRequired), Check(u.role == Subaccount, UseCreateSubaccount),
                   Check(u.role != Admin && u.role != Tenant, InvalidRole),
                   Check(u.role == Tenant && u.palaces == [], TenantPalaces),
                   Check(hash == None, HashFailed), Check(Known(us, u.username), UserExists)];
    var i := FirstExists(checks, 0);
    assert checks[0].fails || checks[1].fails || checks[2].fails || checks[3].fails || checks[4].fails || checks[5].fails || i == 6;
    FirstOf(checks, CreateError(us, u, hash), i);
  }

  lemma AllOrBeyond(us: seq<User>, parent: bytes, perms: PermMap)
    requires Known(us, parent)
    ensures HasAll(us, parent, perms) <==> Covers(TrimmedAll(us[Find(us, parent)].palaces), perms)
  {
    hide Find, Covers, TrimmedAll, Trim;
    TrimmedCovers(us[Find(us, parent)].palaces, perms);
  }

  lemma ParentReason(us: seq<User>, parent: bytes, perms: PermMap)
    ensures FirstFailed(ParentChecks(us, parent, perms), ParentError(us, parent, perms))
  {
    hide Find, Covers, TrimmedAll, Trim, HasAll;
    if Known(us, parent) {
      AllOrBeyond(us, parent, perms);
    }
    var checks := ParentChecks(us, parent, perms);
    var i := FirstExists(checks, 0);
    assert checks[0].fails || checks[1].fails || checks[2].fails || i == 3;
    FirstOf(checks, ParentError(us, parent, perms), i);
  }

  lemma Appended(a: seq<Check>, b: seq<Check>, err: Outcome, all: Outcome)
    requires FirstFailed(b, err)
    requires if exists i :: 0 <= i < |a| && a[i].fails then FirstFailed(a, all) else all == err
    ensures FirstFailed(a + b, all)
  {
    if i :| 0 <= i < |a| && a[i].fails {
      if all.Some? {
        var k :| 0 <= k < |a| && a[k].fails && all.value == a[k].reason && forall j :: 0 <= j < k ==> !a[j].fails;
        FirstOf(a + b, all, k);
      }
    } else if err.Some? {
      var k :| 0 <= k < |b| && b[k].fails && err.value == b[k].reason && forall j :: 0 <= j < k ==> !b[j].fails;
      assert forall j :: 0 <= j < |a| ==> !a[j].fails;
      FirstOf(a + b, all, |a| + k);
    }
  }

  /** A new subaccount is refused for the first of these. */
  lemma CreateSubaccountReason(us: seq<User>, u: User, parent: bytes, perms: PermMap, hash: Hashing)
    ensures FirstFailed(
              [Check(u.username == "", UsernameRequired), Check(u.role != Subaccount, RoleMustBeSubaccount)]
              + (ParentChecks(us, parent, perms) + [Check(hash == None, HashFailed), Check(Known(us, u.username), UserExists)]),
              CreateSubaccountError(us, u, parent, perms, hash))
  {
    hide Known, ParentError, ParentChecks;
    var a := [Check(u.username == "", UsernameRequired), Check(u.role != Subaccount, RoleMustBeSubaccount)];
    var p := ParentChecks(us, parent, perms);
    var b := [Check(hash == None, HashFailed), Check(Known(us, u.username), UserExists)];
    ParentReason(us, parent, perms);
    var late := if hash.None? then Some(HashFailed) else if Known(us, u.username) then Some(UserExists) else None;
    var i := FirstExists(b, 0);
    assert b[0].fails || b[1].fails || i == 2;
    FirstOf(b, late, i);
    var mid := if ParentError(us, parent, perms).Some? then ParentError(us, parent, perms) else late;
    FailedIff(p, ParentError(us, parent, perms));
    Appended(p, b, late, mid);
    var j := FirstExists(a, 0);
    assert a[0].fails || a[1].fails || j == 2;
    if j < |a| {
      FirstOf(a, CreateSubaccountError(us, u, parent, perms, hash), j);
    }
    Appended(a, p + b, mid, CreateSubaccountError(us, u, parent, perms, hash));
  }

  lemma FailedIff(checks: seq<Check>, err: Outcome)
    requires FirstFailed(checks, err)
    ensures err.Some? <==> exists i :: 0 <= i < |checks| && checks[i].fails
  {
  }

  /** An update reports the first of these; only a failed hash leaves the other changes in place. */
  lemma UpdateReason(us: seq<User>, name: bytes, role: Role, palaces: seq<bytes>, password: NewPassword)
    ensures FirstFailed(
              [Check(!Known(us, name), NotFound), Check(Is(us, name, Subaccount), CannotUpdateSubaccount),
               Check(role != Admin && role != Tenant, InvalidRole), Check(role == Tenant && palaces == [], TenantPalaces),
               Check(password == Hashed(None), HashFailed)],
              UpdateError(us, name, role, palaces, password))
  {
    var checks := [Check(!Known(us, name), NotFound), Check(Is(us, name, Subaccount), CannotUpdateSubaccount),
                   Check(role != Admin && role != Tenant, InvalidRole), Check(role == Tenant && palaces == [], TenantPalaces),
                   Check(password == Hashed(None), HashFailed)];
    hide Find;
    var i := FirstExists(checks, 0);
    assert checks[0].fails || checks[1].fails || checks[2].fails || checks[3].fails || checks[4].fails || i == 5;
    FirstOf(checks, UpdateError(us, name, role, palaces, password), i);
  }

  /** A change of a subaccount reports the first of these. */
  lemma UpdateSubaccountReason(us: seq<User>, sub: bytes, parent: bytes, perms: PermMap, password: NewPassword)
    ensures FirstFailed(
              [Check(!IsSubaccountOf(us, sub, parent), NotFound)]
              + (ParentChecks(us, parent, perms) + [Check(password == Hashed(None), HashFailed)]),
              SubaccountUpdateError(us, sub, parent, perms, password))
  {
    hide Find, ParentError, ParentChecks;
    var a := [Check(!IsSubaccountOf(us, sub, parent), NotFound)];
    var p := ParentChecks(us, parent, perms);
    var b := [Check(password == Hashed(None), HashFailed)];
    ParentReason(us, parent, perms);
    var late := PasswordError(password);
    var i := FirstExists(b, 0);
    assert b[0].fails || i == 1;
    FirstOf(b, late, i);
    var mid := if ParentError(us, parent, perms).Some? then ParentError(us, parent, perms) else late;
    FailedIff(p, ParentError(us, parent, perms));
    Appended(p, b, late, mid);
    if a[0].fails {
      FirstOf(a, SubaccountUpdateError(us, sub, parent, perms, password), 0);
    }
    Appended(a, p + b, mid, SubaccountUpdateError(us, sub, parent, perms, password));
  }

  /** A delete that is refused was of an unknown user, or of the only admin. */
  lemma DeleteReason(us: seq<User>, name: bytes)
    ensures FirstFailed([Check(!Known(us, name), NotFound), Check(Is(us, name, Admin) && CountAdmins(us) <= 1, LastAdmin)],
                        DeleteError(us, name))
  {
    hide Find, CountAdmins;
    var checks := [Check(!Known(us, name), NotFound), Check(Is(us, name, Admin) && CountAdmins(us) <= 1, LastAdmin)];
    var i := FirstExists(checks, 0);
    assert checks[0].fails || checks[1].fails || i == 2;
    FirstOf(checks, DeleteError(us, name), i);
  }

  // ---------- Patching ----------

  /** A tenant that gets new palaces must not strand a subaccount: one check for each user, in order. */
  ghost function PruneChecks(us: seq<User>, name: bytes, palaces: Option<seq<bytes>>): seq<Check> {
    if palaces.Some? && Is(us, name, Tenant)
    then seq(|us|, i requires 0 <= i < |us| => Check(Stranded(us[i], name, palaces.value), WouldLosePalaces(us[i].username)))
    else []
  }

  function RoleAfter(us: seq<User>, name: bytes, role: Option<Role>): Role
    requires Known(us, name)
  {
    if role.Some? then role.value else us[Find(us, name)].role
  }

  function PalacesAfter(us: seq<User>, name: bytes, palaces: Option<seq<bytes>>): seq<bytes>
    requires Known(us, name)
  {
    if palaces.Some? then palaces.value else us[Find(us, name)].palaces
  }

  ghost function EarlyChecks(us: seq<User>, name: bytes, role: Option<Role>): seq<Check> {
    [Check(role.Some? && role.value != Admin && role.value != Tenant, InvalidRole), Check(!Known(us, name), NotFound),
     Check(Is(us, name, Subaccount), CannotUpdateSubaccount)]
  }

  ghost function LateChecks(us: seq<User>, name: bytes, role: Option<Role>, palaces: Option<seq<bytes>>, password: NewPassword): seq<Check> {
    if Known(us, name) then
      var r := RoleAfter(us, name, role);
      [Check(r != Admin && r != Tenant, InvalidRole), Check(r == Tenant && PalacesAfter(us, name, palaces) == [], TenantPalaces),
       Check(password == Hashed(None), HashFailed)]
    else []
  }

  /** What stops a patch in its pruning: the first subaccount that would be stranded. */
  lemma PruneReason(us: seq<User>, name: bytes, palaces: Option<seq<bytes>>)
    requires Known(us, name)
    ensures FirstFailed(PruneChecks(us, name, palaces),
                        if palaces.Some? && Is(us, name, Tenant) then Pruned(us, name, palaces.value).err else None)
  {
    hide Find, Pruned, Stranded;
    var checks := PruneChecks(us, name, palaces);
    if palaces.Some? && Is(us, name, Tenant) {
      var n := PruneStops(us, name, palaces.value);
      FirstOf(checks, Pruned(us, name, palaces.value).err, n);
    } else {
      FirstOf(checks, None, 0);
    }
  }

  lemma LateReason(us: seq<User>, name: bytes, role: Option<Role>, palaces: Option<seq<bytes>>, password: NewPassword)
    requires Known(us, name) && us[Find(us, name)].role != Subaccount
    ensures FirstFailed(LateChecks(us, name, role, palaces, password),
                        UpdateError(us, name, RoleAfter(us, name, role), PalacesAfter(us, name, palaces), password))
  {
    hide Find;
    var checks := LateChecks(us, name, role, palaces, password);
    var i := FirstExists(checks, 0);
    assert checks[0].fails || checks[1].fails || checks[2].fails || i == 3;
    FirstOf(checks, UpdateError(us, name, RoleAfter(us, name, role), PalacesAfter(us, name, palaces), password), i);
  }

  /** Pruning does not change what the update reports. */
  lemma UpdateErrorAfterPrune(us: seq<User>, name: bytes, allowed: seq<bytes>, role: Role, palaces: seq<bytes>, password: NewPassword)
    ensures UpdateError(Pruned(us, name, allowed).us, name, role, palaces, password) == UpdateError(us, name, role, palaces, password)
  {
    hide Pruned, Find;
    PruneFinds(us, name, allowed, name);
  }

  lemma PatchErrorIs(us: seq<User>, name: bytes, role: Option<Role>, palaces: Option<seq<bytes>>, password: NewPassword)
    requires Known(us, name) && us[Find(us, name)].role != Subaccount && (role.Some? ==> role.value == Admin || role.value == Tenant)
    ensures var prune := if palaces.Some? && Is(us, name, Tenant) then Pruned(us, name, palaces.value).err else None;
            PatchError(us, name, role, palaces, password) ==
            if prune.Some? then prune
            else UpdateError(us, name, RoleAfter(us, name, role), PalacesAfter(us, name, palaces), password)
  {
    hide Pruned, Find, UpdateError;
    if palaces.Some? {
      UpdateErrorAfterPrune(us, name, palaces.value, RoleAfter(us, name, role), palaces.value, password);
    }
  }

  /** A patch reports the first of these. */
  lemma PatchReason(us: seq<User>, name: bytes, role: Option<Role>, palaces: Option<seq<bytes>>, password: NewPassword)
    ensures FirstFailed(EarlyChecks(us, name, role) + (PruneChecks(us, name, palaces) + LateChecks(us, name, role, palaces, password)),
                        PatchError(us, name, role, palaces, password))
  {
    var a, b, c := EarlyChecks(us, name, role), PruneChecks(us, name, palaces), LateChecks(us, name, role, palaces, password);
    var i := FirstExists(a, 0);
    assert a[0].fails || a[1].fails || a[2].fails || i == 3;
    if i < 3 {
      EarlyReason(us, name, role, palaces, password);
      Preceded(a, b + c, PatchError(us, name, role, palaces, password));
    } else {
      hide Pruned, Find, UpdateError, PatchError, PruneChecks, LateChecks, FirstFailed;
      PruneReason(us, name, palaces);
      LateReason(us, name, role, palaces, password);
      PatchErrorIs(us, name, role, palaces, password);
      var prune := if palaces.Some? && Is(us, name, Tenant) then Pruned(us, name, palaces.value).err else None;
      FailedIff(b, prune);
      var late := UpdateError(us, name, RoleAfter(us, name, role), PalacesAfter(us, name, palaces), password);
      Appended(b, c, late, if prune.Some? then prune else late);
      Appended(a, b + c, if prune.Some? then prune else late, PatchError(us, name, role, palaces, password));
    }
  }

  lemma EarlyReason(us: seq<User>, name: bytes, role: Option<Role>, palaces: Option<seq<bytes>>, password: NewPassword)
    requires exists i :: 0 <= i < 3 && EarlyChecks(us, name, role)[i].fails
    ensures FirstFailed(EarlyChecks(us, name, role), PatchError(us, name, role, palaces, password))
  {
    hide Pruned, Find, UpdateError;
    var checks := EarlyChecks(us, name, role);
    var i := FirstExists(checks, 0);
    assert checks[0].fails || checks[1].fails || checks[2].fails;
    FirstOf(checks, PatchError(us, name, role, palaces, password), i);
  }

  lemma Preceded(a: seq<Check>, b: seq<Check>, err: Outcome)
    requires FirstFailed(a, err) && exists i :: 0 <= i < |a| && a[i].fails
    ensures FirstFailed(a + b, err)
  {
    var i := FirstExists(b, 0);
    FirstOf(b, if i < |b| then Some(b[i].reason) else None, i);
    Appended(a, b, if i < |b| then Some(b[i].reason) else None, err);
  }

  lemma PruneErrorIs(us: seq<User>, name: bytes, allowed: seq<bytes>)
    ensures var err := Pruned(us, name, allowed).err; err.Some? ==> err.value.WouldLosePalaces?
  {
    hide Pruned;
    var n := PruneStops(us, name, allowed);
  }

  /** A patch that is refused after its pruning leaves the subaccounts narrowed. */
  lemma PatchLeaves(us: seq<User>, name: bytes, role: Option<Role>, palaces: Option<seq<bytes>>, password: NewPassword)
    ensures var err, out := PatchError(us, name, role, palaces, password), Patched(us, name, role, palaces, password);
            && (err in {Some(NotFound), Some(CannotUpdateSubaccount), Some(InvalidRole)} ==> out == us)
            && (err.Some? && err.value.WouldLosePalaces? ==> palaces.Some? && out == Pruned(us, name, palaces.value).us)
            && (err == Some(TenantPalaces) ==>
                  out == if palaces.Some? && Is(us, name, Tenant) then Pruned(us, name, palaces.value).us else us)
  {
    hide Pruned, Find;
    if palaces.Some? {
      PruneFinds(us, name, palaces.value, name);
      PruneErrorIs(us, name, palaces.value);
    }
  }

  /** A failed hash is met after everything else was changed: the patch leaves what it would leave without a password. */
  lemma PatchHashFails(us: seq<User>, name: bytes, role: Option<Role>, palaces: Option<seq<bytes>>, password: NewPassword)
    requires PatchError(us, name, role, palaces, password) == Some(HashFailed)
    ensures PatchError(us, name, role, palaces, Unchanged).None?
    ensures Patched(us, name, role, palaces, password) == Patched(us, name, role, palaces, Unchanged)
  {
    hide Pruned, Find;
    if palaces.Some? {
      PruneFinds(us, name, palaces.value, name);
      PruneErrorIs(us, name, palaces.value);
    }
  }

  /** A permission is one of ten words, in any case and padding. */
  lemma PermissionNamed(left: bytes, w: bytes, right: bytes)
    requires AllSpace(left) && AllSpace(right) && Trimmed(w)
    ensures IsValidPalacePerm(left + w + right) <==>
            ToLower(w) in {"control", "logs", "users", "bans", "media", "files", "settings", "props", "pages", "backups"}
  {
    hide Trim, ToLower;
    TrimPadded(left, w, right);
  }

  // ---------- What a new user may reach ----------

  /** Under some key that trims to the palace, some text asks for a permission that there is. */
  ghost predicate AsksFor(m: PermMap, palace: bytes) {
    exists k, p :: k in m && Trim(k) == palace != "" && p in m[k] && IsValidPalacePerm(p)
  }

  lemma GivesIs(m: PermMap, k: bytes, palace: bytes)
    ensures Gives(m, k, palace) <==> k in m && Trim(k) == palace != "" && exists p :: p in m[k] && IsValidPalacePerm(p)
  {
    hide Trim, NormList, Cleaned, IsValidPalacePerm;
    if k in m {
      NormListMeaning(m[k]);
      if p :| p in m[k] && IsValidPalacePerm(p) {
        var i :| 0 <= i < |m[k]| && m[k][i] == p;
        ValidCleaned(p);
        assert Wanted(m[k], Cleaned(p));
      }
      if NormList(m[k]) != [] {
        var q := NormList(m[k])[0];
        assert q in NormList(m[k]) && Wanted(m[k], q);
        var i :| 0 <= i < |m[k]| && q == Cleaned(m[k][i]);
        ValidCleaned(m[k][i]);
        assert m[k][i] in m[k];
      }
    }
  }

  lemma ValidCleaned(p: bytes)
    ensures IsValidPalacePerm(p) <==> IsValidPalacePerm(Cleaned(p))
  {
    hide Cleaned;
    CleanedTwice(p);
  }

  /** A new admin reaches every palace, a new tenant the ones it is given. */
  lemma CreatedReaches(us: seq<User>, u: User, hash: Hashing, palace: bytes)
    requires CreateError(us, u, hash).None?
    ensures var out := Created(us, u, hash);
            Known(out, u.username) && (CanAccess(out[Find(out, u.username)], palace) <==> u.role == Admin || palace in u.palaces)
  {
    CreateEffects(us, u, hash, "");
  }

  /** A new subaccount reaches exactly the palaces for which it asks for a permission that there is. */
  lemma SubaccountReaches(us: seq<User>, u: User, parent: bytes, perms: PermMap, hash: Hashing, palace: bytes)
    requires IsNormal(u.palacePerms, perms) && CreateSubaccountError(us, u, parent, perms, hash).None?
    ensures var out := SubaccountCreated(us, u, parent, perms, hash);
            Known(out, u.username) && (CanAccess(out[Find(out, u.username)], palace) <==> AsksFor(u.palacePerms, palace))
  {
    hide Trim, NormList, IsValidPalacePerm, SubaccountCreated, CreateSubaccountError, Find, Gives;
    CreateSubaccountEffects(us, u, parent, perms, hash, "");
    forall k ensures Gives(u.palacePerms, k, palace) <==>
                     k in u.palacePerms && Trim(k) == palace != "" && exists p :: p in u.palacePerms[k] && IsValidPalacePerm(p) {
      GivesIs(u.palacePerms, k, palace);
    }
    if palace in perms {
      var k :| Gives(u.palacePerms, k, palace) && perms[palace] == NormList(u.palacePerms[k]);
      GivesSome(u.palacePerms, k, palace);
    }
  }

  lemma GivesSome(m: PermMap, k: bytes, palace: bytes)
    requires Gives(m, k, palace)
    ensures k in m && NormList(m[k]) != []
  {
  }
}
