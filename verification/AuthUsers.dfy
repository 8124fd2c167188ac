/** The user records of the account store and what each store operation makes of the list of users
    (internal/authstore/store.go). */
module AuthUsers {
  import opened Wrappers
  import opened Bytes
  import opened AuthPerms

  datatype Role = Admin | Tenant | Subaccount | OtherRole(text: bytes)

  datatype User = User(
    username: bytes, passwordBcrypt: bytes, role: Role, palaces: seq<bytes>, parentTenant: bytes,
    palacePerms: PermMap, mustChangePassword: bool)

  datatype StoreError =
    | UsernameRequired | UseCreateSubaccount | CannotUpdateSubaccount | RoleMustBeSubaccount | InvalidRole
    | TenantPalaces | SubaccountPalaces | PalaceNotOfParent | SubaccountParent
    | UserExists | NotFound | LastAdmin | HashFailed | WouldLosePalaces(username: bytes)

  type Outcome = Option<StoreError>

  /** bcrypt is opaque: it gives a hash, or fails. */
  type Hashing = Option<bytes>

  /** The optional new password of an update: none given, or the outcome of hashing it. */
  datatype NewPassword = Unchanged | Hashed(h: Hashing)

  // ---------- Lookup and access ----------

  /** The index of the first user with a name; the number of users when there is none. */
  function Find(us: seq<User>, name: bytes): (i: nat)
    ensures i <= |us| && (i < |us| ==> us[i].username == name)
    ensures forall j :: 0 <= j < i ==> us[j].username != name
  {
    if us == [] || us[0].username == name then 0
    else
      var i := Find(us[1..], name);
      assert forall j :: 1 <= j < i + 1 ==> us[j] == us[1..][j - 1];
      1 + i
  }

  predicate Known(us: seq<User>, name: bytes) {
    Find(us, name) < |us|
  }

  /** CanAccessPalace on a user record. */
  predicate CanAccess(u: User, palace: bytes) {
    match u.role
    case Admin => true
    case Tenant => palace in u.palaces
    case Subaccount => PermsAt(u.palacePerms, palace) != []
    case OtherRole(_) => false
  }

  method CanAccessPalace(role: Role, tenantPalaces: seq<bytes>, palacePerms: PermMap, palaceName: bytes)
    returns (can: bool)
    ensures forall u: User | u.role == role && u.palaces == tenantPalaces && u.palacePerms == palacePerms ::
              can <==> CanAccess(u, palaceName)
  {
    match role
    case Admin => return true;
    case Tenant =>
      for i := 0 to |tenantPalaces|
        invariant palaceName !in tenantPalaces[..i]
      {
        if tenantPalaces[i] == palaceName {
          return true;
        }
      }
      return false;
    case Subaccount =>
      return palaceName in palacePerms && |palacePerms[palaceName]| > 0;
    case OtherRole(_) => return false;
  }

  function CountAdmins(us: seq<User>): nat {
    if us == [] then 0 else (if us[0].role == Admin then 1 else 0) + CountAdmins(us[1..])
  }

  // ---------- Filtering ----------

  /** The users a test keeps, in order. */
  function Without(us: seq<User>, drop: User -> bool): seq<User> {
    if us == [] then []
    else if drop(us[0]) then Without(us[1..], drop)
    else [us[0]] + Without(us[1..], drop)
  }

  lemma {:induction false} WithoutAppend(us: seq<User>, u: User, drop: User -> bool)
    ensures Without(us + [u], drop) == Without(us, drop) + (if drop(u) then [] else [u])
  {
    if us == [] {
      assert us + [u] == [u] && [u][1..] == [];
    } else {
      assert (us + [u])[1..] == us[1..] + [u];
      WithoutAppend(us[1..], u, drop);
    }
  }

  lemma {:induction false} WithoutMember(us: seq<User>, drop: User -> bool, u: User)
    ensures u in Without(us, drop) <==> u in us && !drop(u)
  {
    if us != [] {
      assert us == [us[0]] + us[1..];
      WithoutMember(us[1..], drop, u);
    }
  }

  // ---------- Renaming a palace ----------

  function RenamedName(p: bytes, o: bytes, n: bytes): bytes {
    if p == o then n else p
  }

  function RenamedPalaces(ps: seq<bytes>, o: bytes, n: bytes): (r: seq<bytes>)
    ensures |r| == |ps| && forall i :: 0 <= i < |ps| ==> r[i] == RenamedName(ps[i], o, n)
  {
    seq(|ps|, i requires 0 <= i < |ps| => RenamedName(ps[i], o, n))
  }

  function RenamedPerms(m: PermMap, o: bytes, n: bytes): PermMap {
    if o in m then (m - {o})[n := m[o]] else m
  }

  function RenamedUser(u: User, o: bytes, n: bytes): User {
    match u.role
    case Tenant => u.(palaces := RenamedPalaces(u.palaces, o, n))
    case Subaccount => u.(palacePerms := RenamedPerms(u.palacePerms, o, n))
    case _ => u
  }

  function Renamed(us: seq<User>, o: bytes, n: bytes): (r: seq<User>)
    ensures |r| == |us|
    ensures o == "" || n == "" || o == n ==> r == us
    ensures !(o == "" || n == "" || o == n) ==> forall i :: 0 <= i < |us| ==> r[i] == RenamedUser(us[i], o, n)
  {
    if o == "" || n == "" || o == n then us else seq(|us|, i requires 0 <= i < |us| => RenamedUser(us[i], o, n))
  }

  // ---------- Purging a palace ----------

  /** A palace list without empty names and without p. */
  function FilteredOut(ps: seq<bytes>, p: bytes): (r: seq<bytes>)
    ensures forall q :: q in r <==> q in ps && q != "" && q != p
  {
    if ps == [] then []
    else
      var rest := FilteredOut(ps[1..], p);
      assert forall q :: q in ps <==> q == ps[0] || q in ps[1..];
      if ps[0] != "" && ps[0] != p then [ps[0]] + rest else rest
  }

  type Holdings = map<bytes, seq<bytes>>

  /** What each tenant name still holds without p; a later record of the same name wins. */
  function HoldingsAfter(us: seq<User>, p: bytes): Holdings {
    if us == [] then map[]
    else AddHolding(HoldingsAfter(us[..|us| - 1], p), us[|us| - 1], p)
  }

  function AddHolding(h: Holdings, u: User, p: bytes): Holdings {
    var left := FilteredOut(u.palaces, p);
    if u.role.Tenant? && left != [] then h[u.username := left] else h
  }

  /** The permissions at palaces the parent still holds. */
  function Within(m: PermMap, palaces: seq<bytes>): PermMap {
    map k | k in m && k != "" && k in palaces && m[k] != [] :: m[k]
  }

  /** The subaccount's permissions, normalized, cut down to the parent's palaces and normalized again. */
  ghost predicate NarrowedBy(u: User, parentPalaces: seq<bytes>, norm: PermMap, left: PermMap) {
    IsNormal(u.palacePerms, norm) && IsNormal(Within(norm, parentPalaces), left)
  }

  /** A subaccount with nothing left goes. */
  function Remaining(u: User, left: PermMap): Option<User> {
    if left == map[] then None else Some(u.(palacePerms := left))
  }

  /** What purging may make of one user; None when the user goes. */
  ghost predicate PurgedOf(h: Holdings, u: User, r: Option<User>) {
    match u.role
    case Admin => r == Some(u)
    case OtherRole(_) => r == Some(u)
    case Tenant => r == if u.username in h then Some(u.(palaces := h[u.username])) else None
    case Subaccount =>
      if u.parentTenant !in h then r == None
      else exists norm, left :: NarrowedBy(u, h[u.parentTenant], norm, left) && r == Remaining(u, left)
  }

  function Somes(rs: seq<Option<User>>): seq<User> {
    if rs == [] then []
    else Somes(rs[..|rs| - 1]) + (match rs[|rs| - 1] case None => [] case Some(u) => [u])
  }

  ghost predicate PurgePicks(us: seq<User>, p: bytes, picks: seq<Option<User>>) {
    && |picks| == |us|
    && forall i :: 0 <= i < |us| ==> PurgedOf(HoldingsAfter(us, Trim(p)), us[i], picks[i])
  }

  /** The lists of users a purge of p may leave. */
  ghost predicate Purged(us: seq<User>, p: bytes, out: seq<User>) {
    if Trim(p) == "" then out == us
    else exists picks :: PurgePicks(us, p, picks) && out == Somes(picks)
  }

  // ---------- Pruning subaccounts ----------

  function Narrowed(m: PermMap, allowed: seq<bytes>): PermMap {
    map k | k in m && k != "" && k in allowed :: m[k]
  }

  predicate IsSubOf(u: User, tenant: bytes) {
    u.role.Subaccount? && u.parentTenant == tenant
  }

  datatype Pruning = Pruning(us: seq<User>, err: Outcome)

  predicate LosesAll(u: User, tenant: bytes, allowed: seq<bytes>) {
    IsSubOf(u, tenant) && u.palacePerms != map[] && Narrowed(u.palacePerms, allowed) == map[]
  }

  function PrunedUser(u: User, tenant: bytes, allowed: seq<bytes>): User {
    if IsSubOf(u, tenant) then u.(palacePerms := Narrowed(u.palacePerms, allowed)) else u
  }

  /** Users are narrowed in order; the first one that would lose everything stops the walk, with the
      ones before it already narrowed. */
  function Pruned(us: seq<User>, tenant: bytes, allowed: seq<bytes>): (r: Pruning)
    ensures |r.us| == |us|
  {
    if us == [] then Pruning([], None)
    else if LosesAll(us[0], tenant, allowed) then Pruning(us, Some(WouldLosePalaces(us[0].username)))
    else
      var rest := Pruned(us[1..], tenant, allowed);
      Pruning([PrunedUser(us[0], tenant, allowed)] + rest.us, rest.err)
  }

  // ---------- Deleting ----------

  /** A deleted tenant takes its subaccounts along. */
  function GoesWith(target: User): User -> bool {
    (u: User) => u.username == target.username || (target.role.Tenant? && IsSubOf(u, target.username))
  }

  function DeleteError(us: seq<User>, name: bytes): Outcome {
    if !Known(us, name) then Some(NotFound)
    else if us[Find(us, name)].role.Admin? && CountAdmins(us) <= 1 then Some(LastAdmin)
    else None
  }

  function Deleted(us: seq<User>, name: bytes): seq<User> {
    if DeleteError(us, name).Some? then us else Without(us, GoesWith(us[Find(us, name)]))
  }

  function SubaccountDeleteError(us: seq<User>, sub: bytes, parent: bytes): Outcome {
    if !Known(us, sub) || !IsSubOf(us[Find(us, sub)], parent) then Some(NotFound) else None
  }

  function SubaccountDeleted(us: seq<User>, sub: bytes, parent: bytes): seq<User> {
    if SubaccountDeleteError(us, sub, parent).Some? then us else Without(us, (u: User) => u.username == sub)
  }

  // ---------- Creating ----------

  function CreateError(us: seq<User>, u: User, hash: Hashing): Outcome {
    if u.username == "" then Some(UsernameRequired)
    else if u.role.Subaccount? then Some(UseCreateSubaccount)
    else if !u.role.Admin? && !u.role.Tenant? then Some(InvalidRole)
    else if u.role.Tenant? && u.palaces == [] then Some(TenantPalaces)
    else if hash.None? then Some(HashFailed)
    else if Known(us, u.username) then Some(UserExists)
    else None
  }

  function Created(us: seq<User>, u: User, hash: Hashing): seq<User> {
    if CreateError(us, u, hash).Some? then us else us + [u.(passwordBcrypt := hash.value)]
  }

  function ParentError(us: seq<User>, parent: bytes, perms: PermMap): Outcome {
    if !Known(us, parent) || !us[Find(us, parent)].role.Tenant? then Some(SubaccountParent)
    else if perms == map[] then Some(SubaccountPalaces)
    else if !Covers(TrimmedAll(us[Find(us, parent)].palaces), perms) then Some(PalaceNotOfParent)
    else None
  }

  /** perms are the normalized permissions. */
  function CreateSubaccountError(us: seq<User>, u: User, parent: bytes, perms: PermMap, hash: Hashing): Outcome {
    if u.username == "" then Some(UsernameRequired)
    else if !u.role.Subaccount? then Some(RoleMustBeSubaccount)
    else if ParentError(us, parent, perms).Some? then ParentError(us, parent, perms)
    else if hash.None? then Some(HashFailed)
    else if Known(us, u.username) then Some(UserExists)
    else None
  }

  function SubaccountCreated(us: seq<User>, u: User, parent: bytes, perms: PermMap, hash: Hashing): seq<User> {
    if CreateSubaccountError(us, u, parent, perms, hash).Some? then us
    else us + [u.(passwordBcrypt := hash.value, parentTenant := parent, palacePerms := perms, palaces := [])]
  }

  // ---------- Updating ----------

  /** Setting a new password also lifts the demand to change it; a failed hash leaves the record alone. */
  function WithPassword(u: User, password: NewPassword): User {
    if password.Hashed? && password.h.Some? then u.(passwordBcrypt := password.h.value, mustChangePassword := false) else u
  }

  function PasswordError(password: NewPassword): Outcome {
    if password.Hashed? && password.h.None? then Some(HashFailed) else None
  }

  function UpdateRefused(us: seq<User>, name: bytes, role: Role, palaces: seq<bytes>): Outcome {
    if !Known(us, name) then Some(NotFound)
    else if us[Find(us, name)].role.Subaccount? then Some(CannotUpdateSubaccount)
    else if !role.Admin? && !role.Tenant? then Some(InvalidRole)
    else if role.Tenant? && palaces == [] then Some(TenantPalaces)
    else None
  }

  function UpdatedUser(u: User, role: Role, palaces: seq<bytes>, password: NewPassword): User {
    WithPassword(u.(role := role, palaces := palaces, parentTenant := "", palacePerms := map[]), password)
  }

  /** A failed hash is reported after the record was already changed. */
  function UpdateError(us: seq<User>, name: bytes, role: Role, palaces: seq<bytes>, password: NewPassword): Outcome {
    if UpdateRefused(us, name, role, palaces).Some? then UpdateRefused(us, name, role, palaces)
    else PasswordError(password)
  }

  function Updated(us: seq<User>, name: bytes, role: Role, palaces: seq<bytes>, password: NewPassword): (r: seq<User>)
    ensures |r| == |us|
  {
    if UpdateRefused(us, name, role, palaces).Some? then us
    else us[Find(us, name) := UpdatedUser(us[Find(us, name)], role, palaces, password)]
  }

  function SubaccountUpdateRefused(us: seq<User>, sub: bytes, parent: bytes, perms: PermMap): Outcome {
    if !Known(us, sub) || !IsSubOf(us[Find(us, sub)], parent) then Some(NotFound) else ParentError(us, parent, perms)
  }

  function SubaccountUpdateError(us: seq<User>, sub: bytes, parent: bytes, perms: PermMap, password: NewPassword): Outcome {
    if SubaccountUpdateRefused(us, sub, parent, perms).Some? then SubaccountUpdateRefused(us, sub, parent, perms)
    else PasswordError(password)
  }

  function SubaccountUpdated(us: seq<User>, sub: bytes, parent: bytes, perms: PermMap, password: NewPassword): (r: seq<User>)
    ensures |r| == |us|
  {
    if SubaccountUpdateRefused(us, sub, parent, perms).Some? then us
    else us[Find(us, sub) := WithPassword(us[Find(us, sub)].(palacePerms := perms), password)]
  }

  /** What handleUserPatch reports. */
  function PatchError(us: seq<User>, name: bytes, role: Option<Role>, palaces: Option<seq<bytes>>, password: NewPassword): Outcome {
    if role.Some? && !role.value.Admin? && !role.value.Tenant? then Some(InvalidRole)
    else if !Known(us, name) then Some(NotFound)
    else if us[Find(us, name)].role.Subaccount? then Some(CannotUpdateSubaccount)
    else
      var u := us[Find(us, name)];
      var newRole := if role.Some? then role.value else u.role;
      var newPalaces := if palaces.Some? then palaces.value else u.palaces;
      if u.role.Tenant? && palaces.Some? then
        var p := Pruned(us, name, newPalaces);
        if p.err.Some? then p.err else UpdateError(p.us, name, newRole, newPalaces, password)
      else UpdateError(us, name, newRole, newPalaces, password)
  }

  /** handleUserPatch: prune the subaccounts of a tenant that gets a new palace list, then update. */
  function Patched(us: seq<User>, name: bytes, role: Option<Role>, palaces: Option<seq<bytes>>, password: NewPassword): (r: seq<User>)
    ensures |r| == |us|
  {
    if !Known(us, name) || us[Find(us, name)].role.Subaccount? then us
    else
      var u := us[Find(us, name)];
      var newRole := if role.Some? then role.value else u.role;
      var newPalaces := if palaces.Some? then palaces.value else u.palaces;
      if role.Some? && !role.value.Admin? && !role.value.Tenant? then us
      else if u.role.Tenant? && palaces.Some? then
        var p := Pruned(us, name, newPalaces);
        if p.err.Some? then p.us else Updated(p.us, name, newRole, newPalaces, password)
      else Updated(us, name, newRole, newPalaces, password)
  }
}
