/** Purging a permanently deleted palace from the account store (internal/authstore/store.go). */
module AuthPurge {
  import opened Wrappers
  import opened Bytes
  import opened AuthPerms
  import opened AuthUsers
  import opened AuthInvariant

  // ---------- Holdings ----------

  lemma {:induction false} HoldingsMeaning(us: seq<User>, p: bytes, name: bytes)
    ensures name in HoldingsAfter(us, p) ==>
              exists t :: t in us && t.role.Tenant? && t.username == name && FilteredOut(t.palaces, p) != []
                          && HoldingsAfter(us, p)[name] == FilteredOut(t.palaces, p)
    ensures name !in HoldingsAfter(us, p) ==>
              forall t :: t in us && t.role.Tenant? && t.username == name ==> FilteredOut(t.palaces, p) == []
  {
    hide FilteredOut;
    if us != [] {
      var init, last := us[..|us| - 1], us[|us| - 1];
      assert us == init + [last];
      HoldingsMeaning(init, p, name);
    }
  }

  /** With unique names a tenant's holdings are its own list without the palace. */
  lemma HoldingOf(us: seq<User>, p: bytes, t: User)
    requires UniqueNames(us) && t in us && t.role.Tenant?
    ensures var h := HoldingsAfter(us, p);
            if FilteredOut(t.palaces, p) == [] then t.username !in h
            else t.username in h && h[t.username] == FilteredOut(t.palaces, p)
  {
    hide FilteredOut, HoldingsAfter;
    HoldingsMeaning(us, p, t.username);
    if t.username in HoldingsAfter(us, p) {
      var s :| s in us && s.role.Tenant? && s.username == t.username && FilteredOut(s.palaces, p) != []
               && HoldingsAfter(us, p)[t.username] == FilteredOut(s.palaces, p);
      SameUser(us, s, t);
    }
  }

  // ---------- One user ----------

  lemma PurgedKeepsName(h: Holdings, u: User, r: Option<User>)
    requires PurgedOf(h, u, r) && r.Some?
    ensures r.value.username == u.username && r.value.role == u.role && r.value.parentTenant == u.parentTenant
  {
    hide NarrowedBy;
  }

  /** What is left of a subaccount's permissions lies within the parent's remaining palaces. */
  lemma PurgedSubaccount(h: Holdings, u: User, r: Option<User>)
    requires PurgedOf(h, u, r) && u.role.Subaccount? && r.Some?
    ensures u.parentTenant in h && Settled(r.value.palacePerms) && r.value.palacePerms != map[]
    ensures Covers(h[u.parentTenant], r.value.palacePerms)
  {
    hide IsNormal, NormList, Trim;
    var ps := h[u.parentTenant];
    var norm, left :| NarrowedBy(u, ps, norm, left) && r == Remaining(u, left);
    NormalIsSettled(u.palacePerms, norm);
    SettledFixed(Within(norm, ps), left);
  }

  /** A subaccount whose permissions are settled keeps exactly those at the parent's remaining palaces. */
  lemma PurgedSettled(h: Holdings, u: User, r: Option<User>)
    requires PurgedOf(h, u, r) && u.role.Subaccount? && u.parentTenant in h && Settled(u.palacePerms)
    ensures r == Remaining(u, Within(u.palacePerms, h[u.parentTenant]))
  {
    hide IsNormal, NormList, Trim;
    var ps := h[u.parentTenant];
    var norm, left :| NarrowedBy(u, ps, norm, left) && r == Remaining(u, left);
    SettledFixed(u.palacePerms, norm);
    SettledFixed(Within(norm, ps), left);
  }

  // ---------- The list that is left ----------

  lemma {:induction false} SomesMember(rs: seq<Option<User>>, v: User)
    ensures v in Somes(rs) <==> exists i :: 0 <= i < |rs| && rs[i] == Some(v)
  {
    if rs != [] {
      var init, last := rs[..|rs| - 1], rs[|rs| - 1];
      assert rs == init + [last];
      SomesMember(init, v);
      if v in Somes(init) {
        var i :| 0 <= i < |init| && init[i] == Some(v);
        assert rs[i] == Some(v);
      }
      if i :| 0 <= i < |rs| && rs[i] == Some(v) {
        if i < |init| {
          assert init[i] == Some(v);
        }
      }
    }
  }

  lemma {:induction false} SomesUnique(rs: seq<Option<User>>)
    requires forall i, j :: 0 <= i < j < |rs| && rs[i].Some? && rs[j].Some? ==> rs[i].value.username != rs[j].value.username
    ensures UniqueNames(Somes(rs))
  {
    if rs != [] {
      var init, last := rs[..|rs| - 1], rs[|rs| - 1];
      SomesUnique(init);
      if last.Some? {
        forall v | v in Somes(init) ensures v.username != last.value.username {
          SomesMember(init, v);
          var i :| 0 <= i < |init| && init[i] == Some(v);
          assert rs[i] == init[i];
        }
      }
    }
  }

  lemma PicksUnique(us: seq<User>, p: bytes, picks: seq<Option<User>>)
    requires UniqueNames(us) && PurgePicks(us, p, picks)
    ensures UniqueNames(Somes(picks))
  {
    hide PurgedOf, HoldingsAfter;
    var h := HoldingsAfter(us, Trim(p));
    forall i | 0 <= i < |us| && picks[i].Some? ensures picks[i].value.username == us[i].username {
      PurgedKeepsName(h, us[i], picks[i]);
    }
    SomesUnique(picks);
  }

  /** The purge establishes the subaccount-within-parent invariant from unique usernames alone. */
  lemma PurgeEstablishes(us: seq<User>, p: bytes, out: seq<User>)
    requires UniqueNames(us) && Trim(p) != "" && Purged(us, p, out)
    ensures UniqueNames(out) && SubsWithin(out)
    ensures forall v :: v in out && v.role.Subaccount? ==> Settled(v.palacePerms)
  {
    hide PurgedOf, HoldingsAfter, Settled, Covers, Trim;
    var picks :| PurgePicks(us, p, picks) && out == Somes(picks);
    PicksUnique(us, p, picks);
    forall v | v in out ensures SubWithin(out, v) && (v.role.Subaccount? ==> Settled(v.palacePerms)) {
      SomesMember(picks, v);
      var i :| 0 <= i < |picks| && picks[i] == Some(v);
      SubaccountWithin(us, p, picks, i);
    }
  }

  lemma SubaccountWithin(us: seq<User>, p: bytes, picks: seq<Option<User>>, i: nat)
    requires UniqueNames(us) && PurgePicks(us, p, picks) && i < |us| && picks[i].Some?
    ensures SubWithin(Somes(picks), picks[i].value)
    ensures picks[i].value.role.Subaccount? ==> Settled(picks[i].value.palacePerms)
  {
    hide PurgedOf, HoldingsAfter, Settled, Covers, Trim, FilteredOut;
    var name := Trim(p);
    var h := HoldingsAfter(us, name);
    var u, v := us[i], picks[i].value;
    PurgedKeepsName(h, u, picks[i]);
    if u.role.Subaccount? {
      PurgedSubaccount(h, u, picks[i]);
      HoldingsMeaning(us, name, u.parentTenant);
      var t :| t in us && t.role.Tenant? && t.username == u.parentTenant && FilteredOut(t.palaces, name) != []
               && h[u.parentTenant] == FilteredOut(t.palaces, name);
      var j :| 0 <= j < |us| && us[j] == t;
      TenantPurged(h, t, picks[j]);
      SomesMember(picks, picks[j].value);
      assert IsParent(picks[j].value, v);
    }
  }

  lemma TenantPurged(h: Holdings, t: User, r: Option<User>)
    requires PurgedOf(h, t, r) && t.role.Tenant?
    ensures r == if t.username in h then Some(t.(palaces := h[t.username])) else None
  {
  }

  /** Nobody but admins reaches the purged palace. */
  lemma PurgeUnreachable(us: seq<User>, p: bytes, out: seq<User>, v: User)
    requires Trim(p) != "" && Purged(us, p, out) && v in out
    ensures CanAccess(v, Trim(p)) <==> v.role.Admin?
  {
    hide HoldingsAfter, Settled, Trim, PurgedOf;
    var name := Trim(p);
    var h := HoldingsAfter(us, name);
    var picks :| PurgePicks(us, p, picks) && out == Somes(picks);
    SomesMember(picks, v);
    var i :| 0 <= i < |picks| && picks[i] == Some(v);
    var u := us[i];
    PurgedKeepsName(h, u, picks[i]);
    if u.role.Tenant? {
      TenantPurged(h, u, picks[i]);
      HoldingsMeaning(us, name, u.username);
    } else if u.role.Subaccount? {
      PurgedSubaccount(h, u, picks[i]);
      HoldingsMeaning(us, name, u.parentTenant);
    }
  }

  // ---------- Access elsewhere ----------

  /** The permission list a user has at a palace through delegation. */
  function ListAt(u: User, q: bytes): seq<bytes> {
    if u.role.Subaccount? then PermsAt(u.palacePerms, q) else []
  }

  /** One user: kept with the same access and list at q, or removed having had none. */
  ghost predicate SameAt(u: User, r: Option<User>, q: bytes) {
    match r
    case None => !CanAccess(u, q) && ListAt(u, q) == []
    case Some(v) => v.username == u.username && (CanAccess(v, q) <==> CanAccess(u, q)) && ListAt(v, q) == ListAt(u, q)
  }

  lemma TenantSameAt(us: seq<User>, p: bytes, u: User, r: Option<User>, q: bytes)
    requires Inv(us) && u in us && u.role.Tenant? && q != p
    requires PurgedOf(HoldingsAfter(us, p), u, r)
    ensures SameAt(u, r, q)
  {
    hide HoldingsAfter, PurgedOf, FilteredOut, Trim, SubsWithin;
    var h := HoldingsAfter(us, p);
    TenantPurged(h, u, r);
    HoldingOf(us, p, u);
    assert UserClean(u);
    FilteredMeans(u.palaces, p, q);
  }

  lemma FilteredMeans(ps: seq<bytes>, p: bytes, q: bytes)
    ensures q in FilteredOut(ps, p) <==> q in ps && q != "" && q != p
  {
  }

  lemma SubaccountSameAt(us: seq<User>, p: bytes, u: User, r: Option<User>, q: bytes)
    requires Inv(us) && u in us && u.role.Subaccount? && q != p
    requires PurgedOf(HoldingsAfter(us, p), u, r)
    ensures SameAt(u, r, q)
  {
    hide HoldingsAfter, PurgedOf, FilteredOut, Trim, NormList;
    var h := HoldingsAfter(us, p);
    assert SubWithin(us, u) && UserClean(u);
    var t :| t in us && IsParent(t, u);
    HoldingOf(us, p, t);
    FilteredMeans(t.palaces, p, q);
    if u.parentTenant in h {
      PurgedSettled(h, u, r);
      var left := Within(u.palacePerms, h[u.parentTenant]);
      assert q in u.palacePerms <==> q in left;
    } else {
      OrphanGoes(h, u, r);
    }
  }

  lemma OrphanGoes(h: Holdings, u: User, r: Option<User>)
    requires PurgedOf(h, u, r) && u.role.Subaccount? && u.parentTenant !in h
    ensures r == None
  {
  }

  lemma UserSameAt(us: seq<User>, p: bytes, u: User, r: Option<User>, q: bytes)
    requires Inv(us) && u in us && q != p && PurgedOf(HoldingsAfter(us, p), u, r)
    ensures SameAt(u, r, q)
  {
    hide HoldingsAfter, Inv, NarrowedBy;
    if u.role.Tenant? {
      TenantSameAt(us, p, u, r, q);
    } else if u.role.Subaccount? {
      SubaccountSameAt(us, p, u, r, q);
    }
  }

  /** Some user of that name may see the palace. */
  ghost predicate MaySee(us: seq<User>, who: bytes, q: bytes) {
    exists u :: u in us && u.username == who && CanAccess(u, q)
  }

  /** The delegated permissions of whoever has that name. */
  function DelegatedTo(us: seq<User>, who: bytes, q: bytes): seq<bytes> {
    if Known(us, who) then ListAt(us[Find(us, who)], q) else []
  }

  /** Purging a palace changes access and permissions only at that palace. */
  lemma PurgeElsewhere(us: seq<User>, p: bytes, out: seq<User>, who: bytes, q: bytes)
    requires Inv(us) && Purged(us, p, out) && q != Trim(p)
    ensures MaySee(out, who, q) <==> MaySee(us, who, q)
    ensures DelegatedTo(out, who, q) == DelegatedTo(us, who, q)
  {
    hide HoldingsAfter, PurgedOf, Inv, Trim, CanAccess, ListAt;
    if Trim(p) != "" {
      var h := HoldingsAfter(us, Trim(p));
      var picks :| PurgePicks(us, p, picks) && out == Somes(picks);
      forall i | 0 <= i < |us| ensures SameAt(us[i], picks[i], q) {
        assert us[i] in us;
        UserSameAt(us, Trim(p), us[i], picks[i], q);
      }
      InvUnique(us);
      SameMaySee(us, picks, who, q);
      SameDelegated(us, p, picks, who, q);
    }
  }

  lemma InvUnique(us: seq<User>)
    requires Inv(us)
    ensures UniqueNames(us)
  {
  }

  lemma SameMaySee(us: seq<User>, picks: seq<Option<User>>, who: bytes, q: bytes)
    requires |picks| == |us| && forall i :: 0 <= i < |us| ==> SameAt(us[i], picks[i], q)
    ensures MaySee(Somes(picks), who, q) <==> MaySee(us, who, q)
  {
    hide CanAccess, ListAt;
    var out := Somes(picks);
    if v :| v in out && v.username == who && CanAccess(v, q) {
      SomesMember(picks, v);
      var i :| 0 <= i < |picks| && picks[i] == Some(v);
      assert us[i] in us;
    }
    if u :| u in us && u.username == who && CanAccess(u, q) {
      var i :| 0 <= i < |us| && us[i] == u;
      SomesMember(picks, picks[i].value);
    }
  }

  lemma SameDelegated(us: seq<User>, p: bytes, picks: seq<Option<User>>, who: bytes, q: bytes)
    requires UniqueNames(us) && PurgePicks(us, p, picks)
    requires forall i :: 0 <= i < |us| ==> SameAt(us[i], picks[i], q)
    ensures DelegatedTo(Somes(picks), who, q) == DelegatedTo(us, who, q)
  {
    hide HoldingsAfter, PurgedOf, CanAccess, ListAt, Trim;
    var out := Somes(picks);
    PicksUnique(us, p, picks);
    var k, i := Find(out, who), Find(us, who);
    if k < |out| {
      SomesMember(picks, out[k]);
      var j :| 0 <= j < |picks| && picks[j] == Some(out[k]);
      assert us[j] in us;
      FoundUser(us, us[j]);
    } else if i < |us| {
      if picks[i].Some? {
        SomesMember(picks, picks[i].value);
        FoundUser(out, picks[i].value);
      }
    }
  }

  lemma PurgeKeepsInv(us: seq<User>, p: bytes, out: seq<User>)
    requires Inv(us) && Purged(us, p, out)
    ensures Inv(out)
  {
    hide HoldingsAfter, PurgedOf, Trim, Settled, SubsWithin, FilteredOut;
    if Trim(p) != "" {
      PurgeEstablishes(us, p, out);
      var h := HoldingsAfter(us, Trim(p));
      var picks :| PurgePicks(us, p, picks) && out == Somes(picks);
      forall v | v in out ensures UserClean(v) {
        SomesMember(picks, v);
        var i :| 0 <= i < |picks| && picks[i] == Some(v);
        PurgedKeepsName(h, us[i], picks[i]);
        assert us[i] in us && UserClean(us[i]);
        if v.role.Tenant? {
          TenantPurged(h, us[i], picks[i]);
          HoldingOf(us, Trim(p), us[i]);
          forall q | q in v.palaces ensures q != "" && Trim(q) == q {
            FilteredMeans(us[i].palaces, Trim(p), q);
          }
        }
      }
    }
  }
}
