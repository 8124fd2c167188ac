/** What every operation of the account store keeps: usernames are unique, every subaccount belongs to
    an existing tenant, and its permissions name only palaces of that tenant. */
module AuthInvariant {
  import opened Wrappers
  import opened Bytes
  import opened AuthPerms
  import opened AuthUsers

  ghost predicate UniqueNames(us: seq<User>) {
    forall i, j :: 0 <= i < j < |us| ==> us[i].username != us[j].username
  }

  predicate NamesClean(ps: seq<bytes>) {
    forall p :: p in ps ==> p != "" && Trim(p) == p
  }

  /** Palace names of a tenant are trimmed, and a subaccount's permissions are settled. */
  ghost predicate UserClean(u: User) {
    (u.role.Tenant? ==> NamesClean(u.palaces)) && (u.role.Subaccount? ==> Settled(u.palacePerms))
  }

  predicate IsParent(t: User, u: User) {
    t.role.Tenant? && t.username == u.parentTenant && Covers(t.palaces, u.palacePerms)
  }

  ghost predicate SubWithin(us: seq<User>, u: User) {
    u.role.Subaccount? ==> u.palacePerms != map[] && exists t :: t in us && IsParent(t, u)
  }

  /** Every subaccount stays within an existing tenant. */
  ghost predicate SubsWithin(us: seq<User>) {
    forall u :: u in us ==> SubWithin(us, u)
  }

  ghost predicate Inv(us: seq<User>) {
    UniqueNames(us) && SubsWithin(us) && forall u :: u in us ==> UserClean(u)
  }

  predicate HasAdmin(us: seq<User>) {
    CountAdmins(us) > 0
  }

  // ---------- Uniqueness ----------

  lemma SameUser(us: seq<User>, a: User, b: User)
    requires UniqueNames(us) && a in us && b in us && a.username == b.username
    ensures a == b
  {
    var i :| 0 <= i < |us| && us[i] == a;
    var j :| 0 <= j < |us| && us[j] == b;
    assert !(i < j) && !(j < i);
  }

  lemma FoundUser(us: seq<User>, u: User)
    requires UniqueNames(us) && u in us
    ensures Known(us, u.username) && us[Find(us, u.username)] == u
  {
    var i :| 0 <= i < |us| && us[i] == u;
    SameUser(us, u, us[Find(us, u.username)]);
  }

  lemma {:induction false} WithoutUnique(us: seq<User>, drop: User -> bool)
    requires UniqueNames(us)
    ensures UniqueNames(Without(us, drop))
  {
    if us != [] {
      var rest := us[1..];
      assert forall i, j :: 0 <= i < j < |rest| ==> rest[i] == us[i + 1] && rest[j] == us[j + 1];
      WithoutUnique(rest, drop);
      forall u | u in Without(rest, drop) ensures u.username != us[0].username {
        WithoutMember(rest, drop, u);
        var i :| 0 <= i < |rest| && rest[i] == u;
        assert us[i + 1] == u;
      }
    }
  }

  // ---------- Deleting ----------

  lemma WithoutKeepsInv(us: seq<User>, drop: User -> bool)
    requires Inv(us)
    requires forall t, u :: t in us && u in us && drop(t) && u.role.Subaccount? && IsParent(t, u) ==> drop(u)
    ensures Inv(Without(us, drop))
  {
    hide Settled, Covers, Trim;
    var out := Without(us, drop);
    WithoutUnique(us, drop);
    forall u | u in out ensures SubWithin(out, u) && UserClean(u) {
      WithoutMember(us, drop, u);
      assert SubWithin(us, u);
      if u.role.Subaccount? {
        var t :| t in us && IsParent(t, u);
        WithoutMember(us, drop, t);
      }
    }
  }

  lemma DeleteKeepsInv(us: seq<User>, name: bytes)
    requires Inv(us)
    ensures Inv(Deleted(us, name))
  {
    hide Settled, Covers, Trim;
    if DeleteError(us, name).None? {
      var target := us[Find(us, name)];
      forall t, u | t in us && u in us && GoesWith(target)(t) && u.role.Subaccount? && IsParent(t, u)
        ensures GoesWith(target)(u)
      {
        SameUser(us, t, target);
      }
      WithoutKeepsInv(us, GoesWith(target));
    }
  }

  lemma DeleteSubaccountKeepsInv(us: seq<User>, sub: bytes, parent: bytes)
    requires Inv(us)
    ensures Inv(SubaccountDeleted(us, sub, parent))
  {
    hide Settled, Covers, Trim;
    if SubaccountDeleteError(us, sub, parent).None? {
      var drop := (u: User) => u.username == sub;
      forall t, u | t in us && u in us ensures drop(t) ==> !IsParent(t, u) {
        if drop(t) {
          SameUser(us, t, us[Find(us, sub)]);
        }
      }
      WithoutKeepsInv(us, drop);
    }
  }

  // ---------- Creating ----------

  lemma AppendKeepsInv(us: seq<User>, u: User)
    requires Inv(us) && !Known(us, u.username) && UserClean(u)
    requires SubWithin(us, u)
    ensures Inv(us + [u])
  {
    hide Settled, Covers, NamesClean;
    var out := us + [u];
    forall v | v in out ensures SubWithin(out, v) && UserClean(v) {
      if v in us {
        assert SubWithin(us, v);
      }
      if v.role.Subaccount? {
        var t :| t in us && IsParent(t, v);
        assert t in out;
      }
    }
  }

  lemma CreateKeepsInv(us: seq<User>, u: User, hash: Hashing)
    requires Inv(us) && (u.role.Tenant? ==> NamesClean(u.palaces))
    ensures Inv(Created(us, u, hash))
  {
    hide Settled, Covers, NamesClean, Inv;
    if CreateError(us, u, hash).None? {
      AppendKeepsInv(us, u.(passwordBcrypt := hash.value));
    }
  }

  lemma ParentFound(us: seq<User>, parent: bytes, perms: PermMap, u: User)
    requires Inv(us) && ParentError(us, parent, perms).None?
    requires u.parentTenant == parent && u.palacePerms == perms
    ensures SubWithin(us, u) && IsParent(us[Find(us, parent)], u)
  {
    hide Settled, Trim;
    var t := us[Find(us, parent)];
    assert t in us && NamesClean(t.palaces);
    forall k | k in perms ensures k in t.palaces {
      var i :| 0 <= i < |t.palaces| && TrimmedAll(t.palaces)[i] == k;
      assert t.palaces[i] in t.palaces;
    }
  }

  lemma CreateSubaccountKeepsInv(us: seq<User>, u: User, parent: bytes, perms: PermMap, hash: Hashing)
    requires Inv(us) && Settled(perms)
    ensures Inv(SubaccountCreated(us, u, parent, perms, hash))
  {
    hide Settled, Covers, NamesClean, Inv, SubWithin, ParentError;
    if CreateSubaccountError(us, u, parent, perms, hash).None? {
      var v := u.(passwordBcrypt := hash.value, parentTenant := parent, palacePerms := perms, palaces := []);
      ParentFound(us, parent, perms, v);
      AppendKeepsInv(us, v);
    }
  }

  /** On any store, whatever its palace names look like: an accepted subaccount stays within its tenant exactly
      when the tenant holds every palace asked for as it is spelled, not merely once trimmed. */
  lemma CreateSubaccountWithinIff(us: seq<User>, u: User, parent: bytes, perms: PermMap, hash: Hashing)
    requires UniqueNames(us) && SubsWithin(us) && CreateSubaccountError(us, u, parent, perms, hash).None?
    ensures SubsWithin(SubaccountCreated(us, u, parent, perms, hash)) <==> Covers(us[Find(us, parent)].palaces, perms)
  {
    hide Covers, TrimmedAll;
    var out, t := SubaccountCreated(us, u, parent, perms, hash), us[Find(us, parent)];
    var v := u.(passwordBcrypt := hash.value, parentTenant := parent, palacePerms := perms, palaces := []);
    assert out == us + [v] && t in us && v in out && t in out;
    forall w | w in us ensures SubWithin(out, w) {
      assert SubWithin(us, w);
    }
    OnlyParent(us, t, v);
    assert forall p :: p in out ==> p in us || p == v;
  }

  /** A new record finds a parent exactly when the tenant it names covers it. */
  lemma OnlyParent(us: seq<User>, t: User, v: User)
    requires UniqueNames(us) && t in us && t.role.Tenant? && v.role.Subaccount? && v.parentTenant == t.username
    ensures (exists p :: p in us && IsParent(p, v)) <==> Covers(t.palaces, v.palacePerms)
  {
    hide Covers;
    if p :| p in us && IsParent(p, v) {
      SameUser(us, p, t);
    }
  }

  /** The same for new permissions of an existing subaccount. */
  lemma UpdateSubaccountWithinIff(us: seq<User>, sub: bytes, parent: bytes, perms: PermMap, password: NewPassword)
    requires UniqueNames(us) && SubsWithin(us) && SubaccountUpdateRefused(us, sub, parent, perms).None?
    ensures SubsWithin(SubaccountUpdated(us, sub, parent, perms, password)) <==> Covers(us[Find(us, parent)].palaces, perms)
  {
    hide Covers, TrimmedAll, WithPassword;
    var i, t := Find(us, sub), us[Find(us, parent)];
    var v := WithPassword(us[i].(palacePerms := perms), password);
    var out := us[i := v];
    PasswordOnly(us[i].(palacePerms := perms), password);
    TenantsStay(us, i, v);
    assert t in us && out[i] == v && v in out;
    OnlyParent(us, t, v);
    forall w | w in out && w != v ensures SubWithin(out, w) {
      var k :| 0 <= k < |out| && out[k] == w;
      assert w == us[k] && w in us && SubWithin(us, w);
    }
  }

  /** Replacing a subaccount by a subaccount leaves the tenants alone. */
  lemma TenantsStay(us: seq<User>, i: nat, v: User)
    requires i < |us| && us[i].role.Subaccount? && v.role.Subaccount?
    ensures forall t: User :: t.role.Tenant? ==> (t in us[i := v] <==> t in us)
  {
    var out := us[i := v];
    forall t: User | t.role.Tenant? ensures t in out <==> t in us {
      if t in us {
        var k :| 0 <= k < |us| && us[k] == t;
        assert out[k] == t;
      }
      if t in out {
        var k :| 0 <= k < |out| && out[k] == t;
        assert us[k] == t;
      }
    }
  }

  /** Why tenants' palace names must be trimmed: a subaccount is checked against the trimmed names. */
  lemma UntrimmedNamesBreak(hash: bytes)
    ensures var t := User("t", "", Tenant, [" a"], "", map[], false);
            var u := User("s", "", Subaccount, [], "", map[], false);
            var perms: PermMap := map["a" := ["logs"]];
            && SubsWithin([t]) && CreateSubaccountError([t], u, "t", perms, Some(hash)) == None
            && !SubsWithin(SubaccountCreated([t], u, "t", perms, Some(hash)))
  {
    var t := User("t", "", Tenant, [" a"], "", map[], false);
    var u := User("s", "", Subaccount, [], "", map[], false);
    var perms: PermMap := map["a" := ["logs"]];
    assert Find([t], "t") == 0 && Find([t], "s") == 1 by {
      assert [t][1..] == [];
    }
    assert Trim(" a") == "a" by {
      assert " a"[1..] == "a";
    }
    assert TrimmedAll(t.palaces) == ["a"];
    assert TrimmedAll(t.palaces)[0] == "a" && "a" in perms;
    assert CreateSubaccountError([t], u, "t", perms, Some(hash)) == None;
    var out := SubaccountCreated([t], u, "t", perms, Some(hash));
    var v := User("s", hash, Subaccount, [], "t", perms, false);
    assert out == [t] + [v];
    assert out[1] == v;
    assert "a" in v.palacePerms;
    assert !SubWithin(out, v) by {
      forall p | p in out ensures !IsParent(p, v) {
        assert p == t || p == v;
        assert "a" !in [" a"];
      }
    }
  }

  // ---------- Changing one record ----------

  /** Replacing a record by one of the same name keeps the invariant exactly when the record's
      subaccounts still find their parent in it and, if it is a subaccount, it finds its own. */
  lemma ReplaceInv(us: seq<User>, i: nat, v: User)
    requires Inv(us) && i < |us| && v.username == us[i].username && UserClean(v)
    requires v.role.Subaccount? ==> v.palacePerms != map[] && exists t :: t in us[i := v] && IsParent(t, v)
    ensures Inv(us[i := v]) <==> forall u :: u in us && u != us[i] && u.role.Subaccount? && u.parentTenant == v.username ==> IsParent(v, u)
  {
    hide Settled, Covers, NamesClean, UserClean;
    var out := us[i := v];
    if forall u :: u in us && u != us[i] && u.role.Subaccount? && u.parentTenant == v.username ==> IsParent(v, u) {
      forall u | u in out ensures SubWithin(out, u) && UserClean(u) {
        if u != v {
          var k :| 0 <= k < |out| && out[k] == u;
          assert k != i && u == us[k] && u in us;
          OthersKeepParent(us, i, v, k);
        }
      }
    } else {
      var u :| u in us && u != us[i] && u.role.Subaccount? && u.parentTenant == v.username && !IsParent(v, u);
      var k :| 0 <= k < |us| && us[k] == u;
      assert out[k] == u && u in out && out[i] == v;
      forall t | t in out ensures !IsParent(t, u) {
        if IsParent(t, u) && UniqueNames(out) {
          SameUser(out, t, v);
        } else if IsParent(t, u) {
          NamesKept(us, i, v);
        }
      }
    }
  }

  lemma NamesKept(us: seq<User>, i: nat, v: User)
    requires UniqueNames(us) && i < |us| && v.username == us[i].username
    ensures UniqueNames(us[i := v])
  {
  }

  lemma OthersKeepParent(us: seq<User>, i: nat, v: User, k: nat)
    requires Inv(us) && i < |us| && k < |us| && k != i && v.username == us[i].username
    requires us[k].role.Subaccount? && us[k].parentTenant == v.username ==> IsParent(v, us[k])
    ensures SubWithin(us[i := v], us[k])
  {
    hide Settled, Covers, NamesClean, UserClean;
    var out, u := us[i := v], us[k];
    assert SubWithin(us, u);
    if u.role.Subaccount? {
      var t :| t in us && IsParent(t, u);
      var j :| 0 <= j < |us| && us[j] == t;
      if j == i {
        assert out[i] == v && v in out;
      } else {
        assert out[j] == t && t in out;
      }
    }
  }

  /** A user that some subaccount names as its parent is its parent. */
  lemma ParentOf(us: seq<User>, t: User, u: User)
    requires Inv(us) && t in us && u in us && u.role.Subaccount? && u.parentTenant == t.username
    ensures IsParent(t, u)
  {
    hide Settled, Covers, NamesClean;
    assert SubWithin(us, u);
    var p :| p in us && IsParent(p, u);
    SameUser(us, p, t);
  }

  lemma NotAParent(us: seq<User>, t: User, u: User)
    requires Inv(us) && t in us && u in us && u.role.Subaccount? && !t.role.Tenant?
    ensures u.parentTenant != t.username
  {
    hide Inv, Covers;
    if u.parentTenant == t.username {
      ParentOf(us, t, u);
    }
  }

  lemma UpdateSubaccountKeepsInv(us: seq<User>, sub: bytes, parent: bytes, perms: PermMap, password: NewPassword)
    requires Inv(us) && Settled(perms)
    ensures Inv(SubaccountUpdated(us, sub, parent, perms, password))
  {
    hide Settled, Covers, NamesClean;
    if SubaccountUpdateRefused(us, sub, parent, perms).None? {
      var i := Find(us, sub);
      var v := WithPassword(us[i].(palacePerms := perms), password);
      ParentFound(us, parent, perms, v);
      var t := us[Find(us, parent)];
      assert us[i := v][Find(us, parent)] == t;
      forall u | u in us && u.role.Subaccount? ensures u.parentTenant != v.username {
        NotAParent(us, us[i], u);
      }
      ReplaceInv(us, i, v);
    }
  }

  lemma PasswordOnly(u: User, password: NewPassword)
    ensures var v := WithPassword(u, password);
            && v.username == u.username && v.role == u.role && v.palaces == u.palaces
            && v.parentTenant == u.parentTenant && v.palacePerms == u.palacePerms
  {
  }

  lemma SetPasswordKeepsInv(us: seq<User>, i: nat, password: NewPassword)
    requires Inv(us) && i < |us|
    ensures Inv(us[i := WithPassword(us[i], password)])
  {
    hide Settled, Covers, NamesClean, WithPassword;
    var v := WithPassword(us[i], password);
    assert us[i] in us && UserClean(us[i]);
    PasswordOnly(us[i], password);
    var out := us[i := v];
    if v.role.Subaccount? {
      assert us[i] in us && SubWithin(us, us[i]);
      var t :| t in us && IsParent(t, us[i]);
      var j :| 0 <= j < |us| && us[j] == t;
      assert out[j] == t && t in out && IsParent(t, v);
    }
    forall u | u in us && u.role.Subaccount? && u.parentTenant == v.username ensures IsParent(v, u) {
      ParentOf(us, us[i], u);
    }
    ReplaceInv(us, i, v);
  }

  /** What Update must respect: the user's subaccounts stay within the new palaces. */
  ghost predicate CoversSubs(us: seq<User>, name: bytes, role: Role, palaces: seq<bytes>) {
    forall u :: u in us && IsSubOf(u, name) ==> role.Tenant? && Covers(palaces, u.palacePerms)
  }

  /** Update does not look at subaccounts: it keeps the invariant exactly when the new record still
      covers them. */
  lemma UpdateKeepsInvIff(us: seq<User>, name: bytes, role: Role, palaces: seq<bytes>, password: NewPassword)
    requires Inv(us) && (role.Tenant? ==> NamesClean(palaces)) && UpdateRefused(us, name, role, palaces).None?
    ensures Inv(Updated(us, name, role, palaces, password)) <==> CoversSubs(us, name, role, palaces)
  {
    hide Settled, Covers, NamesClean, Inv;
    var i := Find(us, name);
    var v := UpdatedUser(us[i], role, palaces, password);
    ReplaceInv(us, i, v);
    if CoversSubs(us, name, role, palaces) {
      forall u | u in us && u != us[i] && u.role.Subaccount? && u.parentTenant == v.username ensures IsParent(v, u) {
        assert IsSubOf(u, name);
      }
    } else {
      var u :| u in us && IsSubOf(u, name) && !(role.Tenant? && Covers(palaces, u.palacePerms));
      assert u != us[i] && !IsParent(v, u);
    }
  }

  /** Two accepted updates that break the invariant: fewer palaces for a tenant with a subaccount, and another
      role. */
  lemma UpdateBreaks()
    ensures var t := User("t", "", Tenant, ["a"], "", map[], false);
            var s := User("s", "", Subaccount, [], "t", map["a" := ["logs"]], false);
            && UniqueNames([t, s]) && SubsWithin([t, s])
            && UpdateRefused([t, s], "t", Tenant, ["b"]) == None && !SubsWithin(Updated([t, s], "t", Tenant, ["b"], Unchanged))
            && UpdateRefused([t, s], "t", Admin, []) == None && !SubsWithin(Updated([t, s], "t", Admin, [], Unchanged))
  {
    var t := User("t", "", Tenant, ["a"], "", map[], false);
    var s := User("s", "", Subaccount, [], "t", map["a" := ["logs"]], false);
    assert Find([t, s], "t") == 0;
    assert SubsWithin([t, s]) by {
      assert [t, s][0] == t && "a" in ["a"];
      assert t in [t, s] && IsParent(t, s) && "a" in s.palacePerms;
      forall u | u in [t, s] ensures SubWithin([t, s], u) {
        assert u == t || u == s;
      }
    }
    Orphaned(t, s, Tenant, ["b"]);
    Orphaned(t, s, Admin, []);
  }

  lemma Orphaned(t: User, s: User, role: Role, palaces: seq<bytes>)
    requires s.role.Subaccount? && s.username != t.username && "a" in s.palacePerms && "a" !in palaces
    requires UpdateRefused([t, s], t.username, role, palaces).None?
    ensures !SubsWithin(Updated([t, s], t.username, role, palaces, Unchanged))
  {
    assert Find([t, s], t.username) == 0;
    var out := Updated([t, s], t.username, role, palaces, Unchanged);
    assert out[1] == s && s in out && out[0].palaces == palaces;
    assert !SubWithin(out, s) by {
      forall p | p in out ensures !IsParent(p, s) {
        assert p == out[0] || p == s;
      }
    }
  }
}
