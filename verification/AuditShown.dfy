/** What the audit-log answer holds, told by the places of the entries in the log and by their fields. */
module AuditShown {
  import opened Bytes
  import opened Numbers
  import opened NumberLaws
  import opened AuthUsers
  import opened AuditTail
  import opened AuditQuery

  // ---------- Which places of the log ----------

  predicate Descending(idx: seq<nat>) {
    forall i, j :: 0 <= i < j < |idx| ==> idx[i] > idx[j]
  }

  /** The places are those of the newest entries that can be seen: no seen entry is left out, save those
      older than all the places taken once the limit is reached. */
  ghost predicate NewestPlaces(all: seq<Entry>, see: Entry -> bool, limit: nat, idx: seq<nat>) {
    && Descending(idx)
    && |idx| <= limit
    && (forall i :: 0 <= i < |idx| ==> idx[i] < |all| && see(all[idx[i]]))
    && (forall k :: 0 <= k < |all| && see(all[k]) ==> k in idx || (|idx| == limit && forall i :: 0 <= i < |idx| ==> k < idx[i]))
  }

  predicate AtPlaces(all: seq<Entry>, idx: seq<nat>, shown: seq<Entry>) {
    && |shown| == |idx|
    && forall i :: 0 <= i < |idx| ==> idx[i] < |all| && shown[i] == all[idx[i]]
  }

  lemma NoPlaces(all: seq<Entry>, see: Entry -> bool, limit: nat)
    requires all == [] || limit == 0
    ensures NewestPlaces(all, see, limit, []) && AtPlaces(all, [], [])
  {
  }

  /** The newest entry is looked at first. */
  lemma NewerPlace(all: seq<Entry>, see: Entry -> bool, limit: nat, idx: seq<nat>)
    requires all != [] && limit > 0 && see(all[|all| - 1])
    requires NewestPlaces(all[..|all| - 1], see, limit - 1, idx)
    ensures NewestPlaces(all, see, limit, [|all| - 1] + idx)
  {
    var n := |all| - 1;
    var older, more := all[..n], [n] + idx;
    assert more[0] == n && forall i :: 0 < i < |more| ==> more[i] == idx[i - 1] && more[i] < n;
    forall k | 0 <= k < |all| && see(all[k])
      ensures k in more || (|more| == limit && forall i :: 0 <= i < |more| ==> k < more[i])
    {
      if k < n {
        assert older[k] == all[k];
        if k in idx {
          assert k in more;
        }
      }
    }
  }

  lemma UnseenPlace(all: seq<Entry>, see: Entry -> bool, limit: nat, idx: seq<nat>)
    requires all != [] && !see(all[|all| - 1])
    requires NewestPlaces(all[..|all| - 1], see, limit, idx)
    ensures NewestPlaces(all, see, limit, idx)
  {
    var older := all[..|all| - 1];
    forall k | 0 <= k < |all| && see(all[k])
      ensures k in idx || (|idx| == limit && forall i :: 0 <= i < |idx| ==> k < idx[i])
    {
      assert older[k] == all[k];
    }
  }

  /** The newest entries that can be seen, by their places. */
  lemma {:induction false} PlacesOfNewest(all: seq<Entry>, see: Entry -> bool, limit: nat) returns (idx: seq<nat>)
    ensures NewestPlaces(all, see, limit, idx) && AtPlaces(all, idx, Newest(all, see, limit))
    decreases |all|
  {
    hide Newest, NewestPlaces;
    if all == [] || limit == 0 {
      idx := [];
      NoEntries(see, limit);
      NoLimit(all, see);
      NoPlaces(all, see, limit);
    } else {
      var older := all[..|all| - 1];
      OlderEntry(all, see, limit);
      if see(all[|all| - 1]) {
        idx := PlacesOfNewest(older, see, limit - 1);
        NewerPlace(all, see, limit, idx);
        idx := [|all| - 1] + idx;
      } else {
        idx := PlacesOfNewest(older, see, limit);
        UnseenPlace(all, see, limit, idx);
      }
    }
  }

  lemma SameSight(all: seq<Entry>, a: Entry -> bool, b: Entry -> bool, limit: nat, idx: seq<nat>)
    requires NewestPlaces(all, a, limit, idx) && forall e :: a(e) <==> b(e)
    ensures NewestPlaces(all, b, limit, idx)
  {
  }

  // ---------- Which entries ----------

  ghost predicate FirstNamed(us: seq<User>, name: bytes, i: nat) {
    i < |us| && us[i].username == name && forall j :: 0 <= j < i ==> us[j].username != name
  }

  /** The record of that name lists the palace. */
  ghost predicate Lists(us: seq<User>, name: bytes, palace: bytes) {
    exists i: nat :: FirstNamed(us, name, i) && palace != "" && palace in us[i].palaces
  }

  /** The record of that name is a subaccount of the tenant. */
  ghost predicate IsOwnSubaccount(us: seq<User>, name: bytes, tenant: bytes) {
    exists i: nat :: FirstNamed(us, name, i) && us[i].role == Subaccount && us[i].parentTenant == tenant
  }

  /** A tenant sees its own scope and the palaces it lists; a field of the query that is not blank narrows the
      answer to a palace, to an actor and, for an admin, to what a tenant has done or owns. */
  ghost predicate Visible(us: seq<User>, name: bytes, role: Role, q: Query, e: Entry) {
    && (role == Tenant ==> e.scopeTenant == name || Lists(us, name, e.palace))
    && (AllSpace(q.palace) || e.palace == Trim(q.palace))
    && (AllSpace(q.actor) || e.actor == Trim(q.actor))
    && (role == Admin && !AllSpace(q.tenant) ==>
          Trim(q.tenant) == e.scopeTenant || Trim(q.tenant) == e.actor || Lists(us, Trim(q.tenant), e.palace))
  }

  lemma FindFirst(us: seq<User>, name: bytes, i: nat)
    ensures FirstNamed(us, name, i) <==> Known(us, name) && i == Find(us, name)
  {
  }

  lemma ListsFound(us: seq<User>, name: bytes, palace: bytes)
    ensures Lists(us, name, palace) <==> palace != "" && palace in PalaceSet(us, name)
  {
    hide FirstNamed;
    FindFirst(us, name, Find(us, name));
    forall i: nat ensures FirstNamed(us, name, i) ==> Known(us, name) && i == Find(us, name) {
      FindFirst(us, name, i);
    }
  }

  lemma OwnSubaccountFound(us: seq<User>, name: bytes, tenant: bytes)
    ensures IsOwnSubaccount(us, name, tenant) <==> Known(us, name) && IsSubOf(us[Find(us, name)], tenant)
  {
    hide FirstNamed;
    FindFirst(us, name, Find(us, name));
    forall i: nat ensures FirstNamed(us, name, i) ==> Known(us, name) && i == Find(us, name) {
      FindFirst(us, name, i);
    }
  }

  lemma MatchesVisible(us: seq<User>, name: bytes, role: Role, q: Query, e: Entry)
    ensures Matches(us, name, role, q, e) <==> Visible(us, name, role, q, e)
  {
    hide Trim, AllSpace, PalaceSet, Lists;
    BlankTrim(q.palace);
    BlankTrim(q.actor);
    BlankTrim(q.tenant);
    ListsFound(us, name, e.palace);
    ListsFound(us, Trim(q.tenant), e.palace);
  }

  /** Who is not refused. */
  lemma MayAskIff(us: seq<User>, name: bytes, role: Role, q: Query)
    ensures MayAsk(us, name, role, q) <==>
            || role == Admin
            || (role == Tenant
                && (AllSpace(q.tenant) || Trim(q.tenant) == name)
                && (AllSpace(q.actor) || IsOwnSubaccount(us, Trim(q.actor), name)))
  {
    hide Trim, AllSpace, IsOwnSubaccount;
    BlankTrim(q.actor);
    BlankTrim(q.tenant);
    OwnSubaccountFound(us, Trim(q.actor), name);
  }

  // ---------- How many ----------

  /** The text is a positive 64-bit integer inside white space. */
  ghost predicate Names(text: bytes, v: nat) {
    exists left, sign, ds, right ::
      IsPaddedNumber(text, left, sign, ds, right) && v == Worth(ds, 10) && sign != "-" && 0 < v <= MAX_INT64
  }

  /** The limit is the number asked for, at most 2000; without such a number it is 200. */
  lemma LimitMeaning(text: bytes)
    ensures forall v: nat :: Names(text, v) ==> LimitOf(text) == if v < 2000 then v else 2000
    ensures (forall v: nat :: !Names(text, v)) ==> LimitOf(text) == 200
  {
    hide Trim, Worth, AreDigits, Atoi, AllSpace;
    forall v: nat | Names(text, v) ensures LimitOf(text) == if v < 2000 then v else 2000 {
      var left, sign, ds, right :|
        IsPaddedNumber(text, left, sign, ds, right) && v == Worth(ds, 10) && sign != "-" && 0 < v <= MAX_INT64;
      PaddedTrimmed(text, left, sign, ds, right);
      AtoiReads(sign, ds);
    }
    var t := Trim(text);
    if Atoi(t).ok && Atoi(t).v > 0 {
      var left, right := TrimParts(text);
      var sign, ds := AtoiAccepts(t);
      assert IsPaddedNumber(text, left, sign, ds, right);
      AtoiInRange(t);
      assert Names(text, Worth(ds, 10));
    }
  }

  lemma AtoiInRange(t: bytes)
    ensures Atoi(t).v <= MAX_INT64
  {
  }

  // ---------- The answer ----------

  /** The entries that HandleAuditLog shows are the newest visible ones, newest first, up to the limit. */
  lemma AnswerMeaning(us: seq<User>, all: seq<Entry>, name: bytes, role: Role, q: Query) returns (idx: seq<nat>)
    ensures NewestPlaces(all, (e: Entry) => Visible(us, name, role, q, e), LimitOf(q.limit), idx)
    ensures AtPlaces(all, idx, Newest(all, (e: Entry) => Matches(us, name, role, q, e), LimitOf(q.limit)))
  {
    hide Matches, Visible, Newest, NewestPlaces, AtPlaces, LimitOf;
    var see := (e: Entry) => Matches(us, name, role, q, e);
    idx := PlacesOfNewest(all, see, LimitOf(q.limit));
    forall e ensures see(e) <==> Visible(us, name, role, q, e) {
      MatchesVisible(us, name, role, q, e);
    }
    SameSight(all, see, (e: Entry) => Visible(us, name, role, q, e), LimitOf(q.limit), idx);
  }
}
