/** Renaming a palace in the account store (internal/authstore/store.go). */
module AuthRename {
  import opened Bytes
  import opened AuthPerms
  import opened AuthUsers
  import opened AuthInvariant

  predicate IsRename(o: bytes, n: bytes) {
    o != "" && n != "" && o != n
  }

  /** Nobody's list or permissions name the palace. */
  predicate UnusedBy(u: User, n: bytes) {
    (u.role.Tenant? ==> n !in u.palaces) && (u.role.Subaccount? ==> n !in u.palacePerms)
  }

  ghost predicate Unused(us: seq<User>, n: bytes) {
    forall u :: u in us ==> UnusedBy(u, n)
  }

  lemma InRenamed(ps: seq<bytes>, o: bytes, n: bytes, q: bytes)
    requires o != n
    ensures q in RenamedPalaces(ps, o, n) <==> (q != o && q in ps) || (q == n && o in ps)
  {
    var r := RenamedPalaces(ps, o, n);
    if q in r {
      var i :| 0 <= i < |r| && r[i] == q;
      assert ps[i] in ps;
    }
    if q != o && q in ps {
      var i :| 0 <= i < |ps| && ps[i] == q;
      assert r[i] == q;
    }
    if q == n && o in ps {
      var i :| 0 <= i < |ps| && ps[i] == o;
      assert r[i] == n;
    }
  }

  /** What access to any palace becomes: the new name takes over the old one's, on top of what a tenant
      already had there and in place of what a subaccount had. */
  lemma RenameAccess(u: User, o: bytes, n: bytes, q: bytes)
    requires IsRename(o, n)
    ensures var v := RenamedUser(u, o, n);
            && v.username == u.username && v.role == u.role
            && (q != o && q != n ==> (CanAccess(v, q) <==> CanAccess(u, q)))
            && (q != o && q != n ==> PermsAt(v.palacePerms, q) == PermsAt(u.palacePerms, q))
            && (CanAccess(v, o) <==> u.role.Admin?)
            && (CanAccess(v, n) <==> match u.role
                case Subaccount => CanAccess(u, if o in u.palacePerms then o else n)
                case _ => CanAccess(u, o) || CanAccess(u, n))
  {
    InRenamed(u.palaces, o, n, q);
    InRenamed(u.palaces, o, n, o);
    InRenamed(u.palaces, o, n, n);
  }

  /** Renaming to an unused name carries access across exactly and leaves every other palace alone. */
  lemma RenameCarriesAccess(us: seq<User>, o: bytes, n: bytes, i: nat, q: bytes)
    requires IsRename(o, n) && Unused(us, n) && i < |us|
    ensures var u, v := us[i], Renamed(us, o, n)[i];
            && (CanAccess(v, n) <==> CanAccess(u, o))
            && (u.role.Subaccount? ==> PermsAt(v.palacePerms, n) == PermsAt(u.palacePerms, o))
            && (CanAccess(v, o) <==> u.role.Admin?)
            && (q != o && q != n ==> (CanAccess(v, q) <==> CanAccess(u, q)) && PermsAt(v.palacePerms, q) == PermsAt(u.palacePerms, q))
  {
    assert us[i] in us && UnusedBy(us[i], n);
    RenameAccess(us[i], o, n, q);
  }

  lemma RenameUserBack(u: User, o: bytes, n: bytes)
    requires IsRename(o, n)
    ensures RenamedUser(RenamedUser(u, o, n), n, o) == u <==> UnusedBy(u, n)
  {
    var v := RenamedUser(u, o, n);
    var w := RenamedUser(v, n, o);
    match u.role
    case Tenant =>
      if n in u.palaces {
        var i :| 0 <= i < |u.palaces| && u.palaces[i] == n;
        assert w.palaces[i] == o != u.palaces[i];
      } else {
        forall i | 0 <= i < |u.palaces| ensures w.palaces[i] == u.palaces[i] {
          assert u.palaces[i] in u.palaces;
        }
        assert w.palaces == u.palaces;
      }
    case Subaccount =>
      if n in u.palacePerms {
        assert n !in w.palacePerms;
      } else {
        assert w.palacePerms == u.palacePerms;
      }
    case _ =>
  }

  /** Renaming back restores the whole store exactly when nothing used the new name before. */
  lemma RenameBack(us: seq<User>, o: bytes, n: bytes)
    requires IsRename(o, n)
    ensures Renamed(Renamed(us, o, n), n, o) == us <==> Unused(us, n)
  {
    hide RenamedUser, UnusedBy;
    var back := Renamed(Renamed(us, o, n), n, o);
    forall i | 0 <= i < |us| ensures back[i] == us[i] <==> UnusedBy(us[i], n) {
      RenameUserBack(us[i], o, n);
    }
    if back == us {
      forall u | u in us ensures UnusedBy(u, n) {
        var i :| 0 <= i < |us| && us[i] == u;
      }
    }
  }

  /** A tenant of both palaces: renaming one to the other and back leaves it with one palace, twice. */
  lemma RenameBackLoses()
    ensures var t := User("t", "", Tenant, ["a", "b"], "", map[], false);
            Renamed(Renamed([t], "a", "b"), "b", "a") == [t.(palaces := ["a", "a"])]
  {
    var t := User("t", "", Tenant, ["a", "b"], "", map[], false);
    assert RenamedPalaces(["a", "b"], "a", "b") == ["b", "b"] && RenamedPalaces(["b", "b"], "b", "a") == ["a", "a"];
    assert Renamed([t], "a", "b") == [t.(palaces := ["b", "b"])];
  }

  lemma RenameUserClean(u: User, o: bytes, n: bytes)
    requires IsRename(o, n) && UserClean(u) && Trim(n) == n
    ensures UserClean(RenamedUser(u, o, n))
  {
    hide Trim, NormList;
    var v := RenamedUser(u, o, n);
    if u.role.Tenant? {
      forall p | p in v.palaces ensures p != "" && Trim(p) == p {
        InRenamed(u.palaces, o, n, p);
      }
    }
  }

  lemma RenameKeepsParent(t: User, u: User, o: bytes, n: bytes)
    requires IsRename(o, n) && u.role.Subaccount? && IsParent(t, u)
    ensures IsParent(RenamedUser(t, o, n), RenamedUser(u, o, n))
    ensures u.palacePerms != map[] ==> RenamedUser(u, o, n).palacePerms != map[]
  {
    var t2, u2 := RenamedUser(t, o, n), RenamedUser(u, o, n);
    forall k | k in u2.palacePerms ensures k in t2.palaces {
      InRenamed(t.palaces, o, n, k);
    }
    if u.palacePerms != map[] {
      var k :| k in u.palacePerms;
      assert RenamedName(k, o, n) in u2.palacePerms;
    }
  }

  lemma RenameKeepsInv(us: seq<User>, o: bytes, n: bytes)
    requires Inv(us) && Trim(n) == n
    ensures Inv(Renamed(us, o, n))
  {
    hide RenamedUser, UserClean, Covers, Trim, IsParent;
    if IsRename(o, n) {
      var out := Renamed(us, o, n);
      forall i | 0 <= i < |us| ensures out[i].username == us[i].username && out[i].role == us[i].role {
        RenameAccess(us[i], o, n, o);
      }
      forall v | v in out ensures UserClean(v) && SubWithin(out, v) {
        var i :| 0 <= i < |out| && out[i] == v;
        var u := us[i];
        assert u in us && SubWithin(us, u);
        RenameUserClean(u, o, n);
        if u.role.Subaccount? {
          var t :| t in us && IsParent(t, u);
          var j :| 0 <= j < |us| && us[j] == t;
          RenameKeepsParent(t, u, o, n);
          assert out[j] in out;
        }
      }
    }
  }
}
