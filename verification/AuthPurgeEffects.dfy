/** What purging a palace does to the record found under each name (internal/authstore/store.go). */
module AuthPurgeEffects {
  import opened Wrappers
  import opened Bytes
  import opened AuthPerms
  import opened AuthUsers
  import opened AuthInvariant
  import opened AuthPurge
  import opened AuthEffects

  lemma PickFound(us: seq<User>, p: bytes, picks: seq<Option<User>>, who: bytes)
    requires UniqueNames(us) && PurgePicks(us, p, picks)
    ensures var out := Somes(picks);
            if Known(us, who) && picks[Find(us, who)].Some? then Holds(out, who, picks[Find(us, who)].value) else !Known(out, who)
  {
    hide HoldingsAfter, PurgedOf, Trim;
    var out, h := Somes(picks), HoldingsAfter(us, Trim(p));
    PicksUnique(us, p, picks);
    forall i | 0 <= i < |us| && picks[i].Some? ensures picks[i].value.username == us[i].username {
      PurgedKeepsName(h, us[i], picks[i]);
    }
    if Known(out, who) {
      var v := out[Find(out, who)];
      SomesMember(picks, v);
      var i :| 0 <= i < |picks| && picks[i] == Some(v);
      assert us[i] in us;
      FoundUser(us, us[i]);
      assert Find(us, who) == i;
    }
    if Known(us, who) && picks[Find(us, who)].Some? {
      var v := picks[Find(us, who)].value;
      SomesMember(picks, v);
      FoundUser(out, v);
    }
  }

  /** A palace of the list other than the purged one. */
  ghost predicate HoldsMore(palaces: seq<bytes>, gone: bytes) {
    exists q :: q in palaces && q != "" && q != gone
  }

  lemma FilteredNothing(ps: seq<bytes>, gone: bytes)
    ensures FilteredOut(ps, gone) != [] <==> HoldsMore(ps, gone)
  {
    var r := FilteredOut(ps, gone);
    if r != [] {
      assert r[0] in r;
    }
  }

  /** A tenant goes when it has no other palace, and otherwise loses the purged one. */
  lemma TenantEffect(us: seq<User>, gone: bytes, u: User, r: Option<User>)
    requires UniqueNames(us) && u in us && u.role.Tenant? && PurgedOf(HoldingsAfter(us, gone), u, r)
    ensures r.Some? <==> HoldsMore(u.palaces, gone)
    ensures r.Some? ==>
              && r.value == u.(palaces := r.value.palaces)
              && forall q :: q in r.value.palaces <==> q in u.palaces && q != "" && q != gone
  {
    hide HoldingsAfter, PurgedOf, UniqueNames;
    TenantPurged(HoldingsAfter(us, gone), u, r);
    HoldingOf(us, gone, u);
    FilteredNothing(u.palaces, gone);
  }

  function PermsWithout(m: PermMap, gone: bytes): PermMap {
    map k | k in m && k != gone :: m[k]
  }

  /** A subaccount goes when it may reach nothing else, and otherwise loses its permissions at the purged palace. */
  lemma SubaccountEffect(us: seq<User>, gone: bytes, u: User, r: Option<User>)
    requires Inv(us) && u in us && u.role.Subaccount? && PurgedOf(HoldingsAfter(us, gone), u, r)
    ensures r == if PermsWithout(u.palacePerms, gone) == map[] then None
                 else Some(u.(palacePerms := PermsWithout(u.palacePerms, gone)))
  {
    hide HoldingsAfter, PurgedOf, FilteredOut, Trim, NormList;
    var h := HoldingsAfter(us, gone);
    assert SubWithin(us, u) && UserClean(u);
    var t :| t in us && IsParent(t, u);
    HoldingOf(us, gone, t);
    FilteredNothing(t.palaces, gone);
    forall q ensures q in FilteredOut(t.palaces, gone) <==> q in t.palaces && q != "" && q != gone {
      FilteredMeans(t.palaces, gone, q);
    }
    if u.parentTenant in h {
      PurgedSettled(h, u, r);
      assert Within(u.palacePerms, h[u.parentTenant]) == PermsWithout(u.palacePerms, gone);
    } else {
      OrphanGoes(h, u, r);
      assert forall k :: k in u.palacePerms ==> k in t.palaces && k != "";
    }
  }

  /** Purging removes the palace from every record and nothing else: tenants and subaccounts that have no other go,
      and everybody else is found as before. */
  lemma PurgeEffects(us: seq<User>, p: bytes, out: seq<User>, who: bytes)
    requires Inv(us) && Trim(p) != "" && Purged(us, p, out)
    ensures !Known(us, who) ==> !Known(out, who)
    ensures Known(us, who) ==>
              var u, gone := us[Find(us, who)], Trim(p);
              match u.role
              case Tenant =>
                if HoldsMore(u.palaces, gone) then
                  && Known(out, who)
                  && var v := out[Find(out, who)];
                     && v == u.(palaces := v.palaces)
                     && forall q :: q in v.palaces <==> q in u.palaces && q != "" && q != gone
                else !Known(out, who)
              case Subaccount =>
                if PermsWithout(u.palacePerms, gone) == map[] then !Known(out, who)
                else Holds(out, who, u.(palacePerms := PermsWithout(u.palacePerms, gone)))
              case _ => Holds(out, who, u)
  {
    hide HoldingsAfter, PurgedOf, Inv, Trim, HoldsMore, PermsWithout, Find, Known;
    var picks :| PurgePicks(us, p, picks) && out == Somes(picks);
    InvUnique(us);
    PickFound(us, p, picks, who);
    if Known(us, who) {
      var i := Find(us, who);
      KnownIn(us, who);
      match us[i].role {
        case Tenant => TenantEffect(us, Trim(p), us[i], picks[i]);
        case Subaccount => SubaccountEffect(us, Trim(p), us[i], picks[i]);
        case _ => OtherStays(HoldingsAfter(us, Trim(p)), us[i], picks[i]);
      }
    }
  }

  lemma KnownIn(us: seq<User>, who: bytes)
    requires Known(us, who)
    ensures Find(us, who) < |us| && us[Find(us, who)] in us
  {
  }

  lemma OtherStays(h: Holdings, u: User, r: Option<User>)
    requires PurgedOf(h, u, r) && (u.role.Admin? || u.role.OtherRole?)
    ensures r == Some(u)
  {
  }
}
