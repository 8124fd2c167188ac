/** The audit-log query: who may ask, which entries they see, and the newest-first window of them
    (internal/api/handlers_audit.go). */
module AuditQuery {
  import opened Wrappers
  import opened Bytes
  import opened Numbers
  import opened AuthUsers
  import opened AuditTail

  datatype Query = Query(palace: bytes, tenant: bytes, actor: bytes, limit: bytes)

  datatype Answer = Forbidden | Shown(entries: seq<Entry>)

  // ---------- Who may ask, and for how much ----------

  function LimitOf(text: bytes): (n: nat)
    ensures 1 <= n <= 2000
  {
    var t := Trim(text);
    var a := Atoi(t);
    var n := if t != "" && a.ok && a.v > 0 then a.v else 200;
    if n > 2000 then 2000 else n
  }

  /** A tenant may ask about itself and about its own subaccounts. */
  predicate MayAsk(us: seq<User>, name: bytes, role: Role, q: Query) {
    match role
    case Admin => true
    case Tenant =>
      && (Trim(q.tenant) == "" || Trim(q.tenant) == name)
      && (Trim(q.actor) == "" || (Known(us, Trim(q.actor)) && IsSubOf(us[Find(us, Trim(q.actor))], name)))
    case _ => false
  }

  function PalaceSet(us: seq<User>, name: bytes): set<bytes> {
    if Known(us, name) then set p | p in us[Find(us, name)].palaces && p != "" else {}
  }

  // ---------- Which entries ----------

  predicate TenantSeesEntry(e: Entry, tenant: bytes, palaces: set<bytes>) {
    e.scopeTenant == tenant || (e.palace != "" && e.palace in palaces)
  }

  predicate AdminTenantFilterMatch(e: Entry, tenant: bytes, palaces: set<bytes>) {
    e.scopeTenant == tenant || e.actor == tenant || (e.palace != "" && e.palace in palaces)
  }

  predicate Matches(us: seq<User>, name: bytes, role: Role, q: Query, e: Entry) {
    && (role.Tenant? ==> TenantSeesEntry(e, name, PalaceSet(us, name)))
    && (Trim(q.palace) != "" ==> e.palace == Trim(q.palace))
    && (Trim(q.actor) != "" ==> e.actor == Trim(q.actor))
    && (Trim(q.tenant) != "" && role.Admin? ==> AdminTenantFilterMatch(e, Trim(q.tenant), PalaceSet(us, Trim(q.tenant))))
  }

  // ---------- The newest of them ----------

  function Matching(all: seq<Entry>, see: Entry -> bool): seq<Entry> {
    if all == [] then []
    else Matching(all[..|all| - 1], see) + (if see(all[|all| - 1]) then [all[|all| - 1]] else [])
  }

  function LastOf(es: seq<Entry>, limit: nat): seq<Entry> {
    if |es| <= limit then es else es[|es| - limit..]
  }

  function Reversed(es: seq<Entry>): seq<Entry> {
    if es == [] then [] else [es[|es| - 1]] + Reversed(es[..|es| - 1])
  }

  /** The last entries that match, newest first. */
  function Newest(all: seq<Entry>, see: Entry -> bool, limit: nat): seq<Entry> {
    Reversed(LastOf(Matching(all, see), limit))
  }

  /** One more older entry, looked at after the newer ones gave out. */
  lemma OlderEntry(all: seq<Entry>, see: Entry -> bool, limit: nat)
    requires all != [] && limit > 0
    ensures var last, older := all[|all| - 1], all[..|all| - 1];
            Newest(all, see, limit) ==
            if see(last) then [last] + Newest(older, see, limit - 1) else Newest(older, see, limit)
  {
    hide Reversed;
    var last, older := all[|all| - 1], all[..|all| - 1];
    var es := Matching(older, see);
    if see(last) {
      var more := LastOf(es + [last], limit);
      assert more == LastOf(es, limit - 1) + [last];
      ReversedAppend(LastOf(es, limit - 1), last);
    } else {
      assert es + [] == es;
    }
  }

  /** One turn of the reverse loop. */
  lemma OlderTurn(all: seq<Entry>, i: nat, see: Entry -> bool, limit: nat, out: seq<Entry>)
    requires 0 < i <= |all| && limit > 0
    ensures var e := all[i - 1];
            out + Newest(all[..i], see, limit) ==
            if see(e) then out + [e] + Newest(all[..i - 1], see, limit - 1) else out + Newest(all[..i - 1], see, limit)
  {
    hide Newest;
    OlderEntry(all[..i], see, limit);
    assert all[..i][..i - 1] == all[..i - 1];
    if see(all[i - 1]) {
      assert out + ([all[i - 1]] + Newest(all[..i - 1], see, limit - 1)) == out + [all[i - 1]] + Newest(all[..i - 1], see, limit - 1);
    }
  }

  lemma ReversedAppend(es: seq<Entry>, e: Entry)
    ensures Reversed(es + [e]) == [e] + Reversed(es)
  {
    assert (es + [e])[..|es|] == es;
  }

  lemma NoLimit(all: seq<Entry>, see: Entry -> bool)
    ensures Newest(all, see, 0) == []
  {
    var es := Matching(all, see);
    assert LastOf(es, 0) == [];
  }

  lemma NoEntries(see: Entry -> bool, limit: nat)
    ensures Newest([], see, limit) == []
  {
  }

  /** The reverse loop with its limit. */
  method CollectNewest(all: seq<Entry>, see: Entry -> bool, limit: nat) returns (out: seq<Entry>)
    requires limit >= 1
    ensures out == Newest(all, see, limit)
  {
    hide Newest;
    out := [];
    var i := |all|;
    assert all[..i] == all;
    while i > 0
      invariant 0 <= i <= |all| && |out| < limit
      invariant out + Newest(all[..i], see, limit - |out|) == Newest(all, see, limit)
    {
      OlderTurn(all, i, see, limit - |out|, out);
      i := i - 1;
      var e := all[i];
      if !see(e) {
        continue;
      }
      out := out + [e];
      if |out| >= limit {
        NoLimit(all[..i], see);
        assert out + [] == out;
        return;
      }
    }
    NoEntries(see, limit - |out|);
    assert all[..0] == [] && out + [] == out;
  }

  /** handleAuditLog, after authentication. */
  method HandleAuditLog(us: seq<User>, log: AuditLog, name: bytes, role: Role, q: Query) returns (a: Answer)
    ensures a == if !MayAsk(us, name, role, q) then Forbidden
                 else Shown(Newest(Recent(log.codec, log.content, MAX_TAIL_SCAN),
                                   (e: Entry) => Matches(us, name, role, q, e), LimitOf(q.limit)))
  {
    hide Trim, Newest, Recent, LimitOf, PalaceSet;
    if !role.Admin? && !role.Tenant? {
      return Forbidden;
    }
    if role.Tenant? {
      if Trim(q.tenant) != "" && Trim(q.tenant) != name {
        return Forbidden;
      }
      if Trim(q.actor) != "" {
        if !Known(us, Trim(q.actor)) || !IsSubOf(us[Find(us, Trim(q.actor))], name) {
          return Forbidden;
        }
      }
    }
    var all := log.ReadRecent();
    var out := CollectNewest(all, (e: Entry) => Matches(us, name, role, q, e), LimitOf(q.limit));
    return Shown(out);
  }

  // ---------- What the answer holds ----------

  lemma {:induction false} MatchingOnly(all: seq<Entry>, see: Entry -> bool, e: Entry)
    ensures e in Matching(all, see) <==> e in all && see(e)
  {
    if all != [] {
      assert all == all[..|all| - 1] + [all[|all| - 1]];
      MatchingOnly(all[..|all| - 1], see, e);
    }
  }

  lemma {:induction false} ReversedElements(es: seq<Entry>, e: Entry)
    ensures e in Reversed(es) <==> e in es
    ensures |Reversed(es)| == |es|
  {
    if es != [] {
      assert es == es[..|es| - 1] + [es[|es| - 1]];
      ReversedElements(es[..|es| - 1], e);
    }
  }

  lemma NewestOnly(all: seq<Entry>, see: Entry -> bool, limit: nat, e: Entry)
    requires e in Newest(all, see, limit)
    ensures e in all && see(e)
  {
    hide Matching, Reversed;
    ReversedElements(LastOf(Matching(all, see), limit), e);
    MatchingOnly(all, see, e);
  }

  /** A tenant is shown only entries of its own scope or about its own palaces, and never more than asked. */
  lemma TenantSeesOwn(us: seq<User>, c: Codec, content: bytes, name: bytes, q: Query, e: Entry)
    ensures var shown := Newest(Recent(c, content, MAX_TAIL_SCAN), (x: Entry) => Matches(us, name, Tenant, q, x), LimitOf(q.limit));
            && |shown| <= LimitOf(q.limit)
            && (e in shown ==> e.scopeTenant == name || e.palace in PalaceSet(us, name))
  {
    hide Trim, Newest, Recent, LimitOf, PalaceSet;
    var all, see := Recent(c, content, MAX_TAIL_SCAN), (x: Entry) => Matches(us, name, Tenant, q, x);
    NewestBounded(all, see, LimitOf(q.limit), e);
    if e in Newest(all, see, LimitOf(q.limit)) {
      NewestOnly(all, see, LimitOf(q.limit), e);
    }
  }

  lemma NewestBounded(all: seq<Entry>, see: Entry -> bool, limit: nat, e: Entry)
    ensures |Newest(all, see, limit)| <= limit
  {
    ReversedElements(LastOf(Matching(all, see), limit), e);
  }

  /** Over a file written only by appends, the answer is the newest matching entries of a suffix of the
      history, newest first: of the whole history when the file fits the window. */
  lemma AnswerOverHistory(us: seq<User>, c: Codec, h: seq<Entry>, name: bytes, role: Role, q: Query) returns (k: nat)
    requires AllFaithful(c, h)
    ensures k <= |h| && (|FileOf(c, h)| <= MAX_TAIL_SCAN ==> k == 0)
    ensures var see := (e: Entry) => Matches(us, name, role, q, e);
            Newest(Recent(c, FileOf(c, h), MAX_TAIL_SCAN), see, LimitOf(q.limit)) == Newest(h[k..], see, LimitOf(q.limit))
    ensures forall i :: 0 <= i < |h| ==>
              (i >= k <==> |FileOf(c, h)| <= MAX_TAIL_SCAN || Offset(c, h, i) > |FileOf(c, h)| - MAX_TAIL_SCAN)
  {
    hide Trim, Newest, Recent, LimitOf, PalaceSet, FileOf, Offset;
    k := RecentIsSuffix(c, h, MAX_TAIL_SCAN);
    if |h| > 0 {
      assert 0 >= k <==> |FileOf(c, h)| <= MAX_TAIL_SCAN || Offset(c, h, 0) > |FileOf(c, h)| - MAX_TAIL_SCAN;
    }
  }
}
