/** Delegated palace permissions (internal/authstore/permissions.go). */
module AuthPerms {
  import opened Bytes

  type PermMap = map<bytes, seq<bytes>>

  const ALL_PERMS: seq<bytes> :=
    ["control", "logs", "users", "bans", "media", "files", "settings", "props", "pages", "backups"]

  // ---------- sort.Strings ----------

  /** Byte-wise order. */
  predicate Less(a: bytes, b: bytes) {
    if b == [] then false
    else if a == [] then true
    else if a[0] != b[0] then a[0] < b[0]
    else Less(a[1..], b[1..])
  }

  function Insert(x: bytes, l: seq<bytes>): seq<bytes> {
    if l == [] then [x]
    else if Less(l[0], x) then [l[0]] + Insert(x, l[1..])
    else [x] + l
  }

  function SortStrings(l: seq<bytes>): seq<bytes> {
    if l == [] then [] else Insert(l[0], SortStrings(l[1..]))
  }

  predicate Ascending(l: seq<bytes>) {
    |l| >= 2 ==> Less(l[0], l[1]) && Ascending(l[1..])
  }

  predicate Distinct(l: seq<bytes>) {
    l != [] ==> l[0] !in l[1..] && Distinct(l[1..])
  }

  lemma {:induction false} LessTotal(a: bytes, b: bytes)
    ensures Less(a, b) || Less(b, a) || a == b
  {
    if a != [] && b != [] && a[0] == b[0] {
      LessTotal(a[1..], b[1..]);
      assert a == [a[0]] + a[1..] && b == [b[0]] + b[1..];
    }
  }

  lemma {:induction false} LessOneWay(a: bytes, b: bytes)
    requires Less(a, b)
    ensures !Less(b, a) && a != b
  {
    if a != [] && a[0] == b[0] {
      LessOneWay(a[1..], b[1..]);
    }
  }

  lemma {:induction false} LessChain(a: bytes, b: bytes, c: bytes)
    requires Less(a, b) && Less(b, c)
    ensures Less(a, c)
  {
    if a != [] && a[0] == b[0] == c[0] {
      LessChain(a[1..], b[1..], c[1..]);
    }
  }

  lemma {:induction false} FirstIsLeast(l: seq<bytes>, x: bytes)
    requires Ascending(l) && l != [] && x in l[1..]
    ensures Less(l[0], x)
  {
    if x != l[1] {
      assert l[1..] == [l[1]] + l[1..][1..];
      FirstIsLeast(l[1..], x);
      LessChain(l[0], l[1], x);
    }
  }

  lemma FirstOnce(l: seq<bytes>)
    requires Ascending(l) && l != []
    ensures l[0] !in l[1..]
  {
    if l[0] in l[1..] {
      FirstIsLeast(l, l[0]);
      LessOneWay(l[0], l[0]);
    }
  }

  lemma HeadIn(l: seq<bytes>)
    ensures l != [] ==> exists x :: x in l
  {
    if l != [] {
      assert l[0] in l;
    }
  }

  /** An ascending list is known by its elements. */
  lemma {:induction false} AscendingUnique(a: seq<bytes>, b: seq<bytes>)
    requires Ascending(a) && Ascending(b) && forall x :: x in a <==> x in b
    ensures a == b
  {
    if a == [] {
      HeadIn(b);
    } else {
      assert a[0] in a && b != [] && b[0] in b;
      assert a == [a[0]] + a[1..] && b == [b[0]] + b[1..];
      if a[0] != b[0] {
        FirstIsLeast(a, b[0]);
        FirstIsLeast(b, a[0]);
        LessOneWay(a[0], b[0]);
        assert false;
      }
      FirstOnce(a);
      FirstOnce(b);
      assert forall x :: x in a[1..] <==> x in a && x != a[0];
      assert forall x :: x in b[1..] <==> x in b && x != b[0];
      AscendingUnique(a[1..], b[1..]);
    }
  }

  lemma {:induction false} InsertElements(x: bytes, l: seq<bytes>, y: bytes)
    ensures y in Insert(x, l) <==> y == x || y in l
  {
    if l != [] {
      assert l == [l[0]] + l[1..];
      InsertElements(x, l[1..], y);
    }
  }

  lemma {:induction false} InsertAscending(x: bytes, l: seq<bytes>)
    requires Ascending(l) && x !in l
    ensures Ascending(Insert(x, l))
  {
    if l != [] {
      LessTotal(l[0], x);
      if Less(l[0], x) {
        InsertAscending(x, l[1..]);
        var r := Insert(x, l);
        assert r[1..] == Insert(x, l[1..]);
        assert r[1] == x || (l[1..] != [] && r[1] == l[1]);
      } else {
        assert ([x] + l)[1..] == l;
      }
    }
  }

  lemma {:induction false} SortElements(l: seq<bytes>, y: bytes)
    ensures y in SortStrings(l) <==> y in l
  {
    if l != [] {
      assert l == [l[0]] + l[1..];
      SortElements(l[1..], y);
      InsertElements(l[0], SortStrings(l[1..]), y);
    }
  }

  lemma {:induction false} SortAscending(l: seq<bytes>)
    requires Distinct(l)
    ensures Ascending(SortStrings(l))
  {
    if l != [] {
      SortAscending(l[1..]);
      SortElements(l[1..], l[0]);
      InsertAscending(l[0], SortStrings(l[1..]));
    }
  }

  // ---------- One permission list ----------

  function Cleaned(raw: bytes): bytes {
    ToLower(Trim(raw))
  }

  predicate IsValidPalacePerm(p: bytes) {
    Cleaned(p) in ALL_PERMS
  }

  /** The valid cleaned permissions, first occurrences in order, after the ones in seen. */
  function Kept(perms: seq<bytes>, seen: seq<bytes>): seq<bytes>
    decreases |perms|
  {
    if perms == [] then seen
    else
      var p := Cleaned(perms[0]);
      Kept(perms[1..], if !IsValidPalacePerm(p) || p in seen then seen else seen + [p])
  }

  /** A permission list as it is stored: cleaned, valid, without duplicates, sorted. */
  function NormList(perms: seq<bytes>): seq<bytes> {
    SortStrings(Kept(perms, []))
  }

  method NormalizeList(perms: seq<bytes>) returns (list: seq<bytes>)
    ensures list == NormList(perms)
  {
    hide Cleaned, IsValidPalacePerm, SortStrings;
    var seen: set<bytes> := {};
    list := [];
    for i := 0 to |perms|
      invariant forall p :: p in seen <==> p in list
      invariant Kept(perms[i..], list) == Kept(perms, [])
    {
      assert perms[i..][1..] == perms[i + 1..];
      var p := Cleaned(perms[i]);
      if !IsValidPalacePerm(p) {
        continue;
      }
      if p in seen {
        continue;
      }
      seen := seen + {p};
      list := list + [p];
    }
    list := SortStrings(list);
  }

  predicate Wanted(perms: seq<bytes>, p: bytes) {
    IsValidPalacePerm(p) && exists i :: 0 <= i < |perms| && p == Cleaned(perms[i])
  }

  lemma {:induction false} DistinctAppend(l: seq<bytes>, p: bytes)
    requires Distinct(l) && p !in l
    ensures Distinct(l + [p])
  {
    if l != [] {
      assert l == [l[0]] + l[1..];
      DistinctAppend(l[1..], p);
      assert (l + [p])[1..] == l[1..] + [p];
    } else {
      assert l + [p] == [p] && [p][1..] == [];
    }
  }

  lemma {:induction false} KeptElements(perms: seq<bytes>, seen: seq<bytes>)
    requires Distinct(seen)
    ensures Distinct(Kept(perms, seen))
    ensures forall p :: p in Kept(perms, seen) <==> p in seen || Wanted(perms, p)
    decreases |perms|
  {
    hide Cleaned, IsValidPalacePerm;
    if perms != [] {
      var p := Cleaned(perms[0]);
      var next := if !IsValidPalacePerm(p) || p in seen then seen else seen + [p];
      if next != seen {
        DistinctAppend(seen, p);
      }
      KeptElements(perms[1..], next);
      forall q ensures q in Kept(perms, seen) <==> q in seen || Wanted(perms, q) {
        WantedTail(perms, q);
      }
    }
  }

  lemma WantedTail(perms: seq<bytes>, p: bytes)
    requires perms != []
    ensures Wanted(perms, p) <==> Wanted(perms[1..], p) || (IsValidPalacePerm(p) && p == Cleaned(perms[0]))
  {
    hide Cleaned, IsValidPalacePerm;
    if Wanted(perms[1..], p) {
      var i :| 0 <= i < |perms[1..]| && p == Cleaned(perms[1..][i]);
      assert perms[i + 1] == perms[1..][i];
    }
    if Wanted(perms, p) {
      var i :| 0 <= i < |perms| && p == Cleaned(perms[i]);
      if i > 0 {
        assert perms[1..][i - 1] == perms[i];
      }
    }
  }

  /** A normal list is ascending and holds exactly the valid permissions asked for. */
  lemma NormListMeaning(perms: seq<bytes>)
    ensures Ascending(NormList(perms))
    ensures forall p :: p in NormList(perms) <==> Wanted(perms, p)
  {
    hide Cleaned, IsValidPalacePerm, Kept, SortStrings, Wanted;
    KeptElements(perms, []);
    SortAscending(Kept(perms, []));
    forall p ensures p in NormList(perms) <==> Wanted(perms, p) {
      SortElements(Kept(perms, []), p);
    }
  }

  /** The normal list depends only on which valid permissions are asked for. */
  lemma NormListBySet(a: seq<bytes>, b: seq<bytes>)
    requires forall p :: Wanted(a, p) <==> Wanted(b, p)
    ensures NormList(a) == NormList(b)
  {
    hide NormList, Wanted;
    NormListMeaning(a);
    NormListMeaning(b);
    AscendingUnique(NormList(a), NormList(b));
  }

  lemma CleanedTwice(raw: bytes)
    ensures Cleaned(Cleaned(raw)) == Cleaned(raw)
  {
    hide Trim;
    var t := Trim(raw);
    LowerTrimmed(t);
    TrimFixed(ToLower(t));
    LowerTwice(t);
  }

  lemma LowerTrimmed(t: bytes)
    requires Trimmed(t)
    ensures Trimmed(ToLower(t))
  {
  }

  lemma LowerTwice(t: bytes)
    ensures ToLower(ToLower(t)) == ToLower(t)
  {
  }

  /** Normalizing a normal list changes nothing. */
  lemma NormListTwice(perms: seq<bytes>)
    ensures NormList(NormList(perms)) == NormList(perms)
  {
    hide NormList, Cleaned, IsValidPalacePerm;
    var l := NormList(perms);
    NormListMeaning(perms);
    forall p ensures Wanted(l, p) <==> Wanted(perms, p) {
      if Wanted(perms, p) {
        var i :| 0 <= i < |perms| && p == Cleaned(perms[i]);
        CleanedTwice(perms[i]);
        assert p in l;
        var j :| 0 <= j < |l| && l[j] == p;
      }
      if Wanted(l, p) {
        var j :| 0 <= j < |l| && p == Cleaned(l[j]);
        assert Wanted(perms, l[j]);
        var i :| 0 <= i < |perms| && l[j] == Cleaned(perms[i]);
        CleanedTwice(perms[i]);
      }
    }
    NormListBySet(l, perms);
  }

  // ---------- Permission maps ----------

  /** A key of the map that gives palace p a permission list. */
  predicate Gives(m: PermMap, k: bytes, p: bytes) {
    k in m && Trim(k) == p && p != "" && NormList(m[k]) != []
  }

  /** The maps NormalizePalacePerms may return: it walks m in no particular order, and when two keys
      are the same palace once trimmed, the one it meets last wins. An absent map counts as empty. */
  ghost predicate IsNormal(m: PermMap, out: PermMap) {
    && (forall p :: p in out <==> exists k :: Gives(m, k, p))
    && (forall p :: p in out ==> exists k :: Gives(m, k, p) && out[p] == NormList(m[k]))
  }

  method NormalizePalacePerms(m: PermMap) returns (out: PermMap)
    ensures IsNormal(m, out)
  {
    hide NormList, Trim;
    out := map[];
    var todo := m.Keys;
    while todo != {}
      invariant todo <= m.Keys
      invariant forall p :: p in out <==> exists k :: k !in todo && Gives(m, k, p)
      invariant forall p :: p in out ==> exists k :: Gives(m, k, p) && out[p] == NormList(m[k])
      decreases |todo|
    {
      var palace :| palace in todo;
      ghost var before, was := todo, out;
      todo := todo - {palace};
      var pn := Trim(palace);
      if pn != "" {
        var list := NormalizeList(m[palace]);
        if |list| > 0 {
          out := out[pn := list];
        }
      }
      NormalizeTurn(m, palace, before, was, out);
    }
  }

  lemma NormalizeTurn(m: PermMap, k: bytes, todo: set<bytes>, was: PermMap, out: PermMap)
    requires k in todo && todo <= m.Keys
    requires forall p :: p in was <==> exists j :: j !in todo && Gives(m, j, p)
    requires forall p :: p in was ==> exists j :: Gives(m, j, p) && was[p] == NormList(m[j])
    requires out == if Gives(m, k, Trim(k)) then was[Trim(k) := NormList(m[k])] else was
    ensures forall p :: p in out <==> exists j :: j !in todo - {k} && Gives(m, j, p)
    ensures forall p :: p in out ==> exists j :: Gives(m, j, p) && out[p] == NormList(m[j])
  {
    hide NormList, Trim;
    forall p ensures p in out <==> exists j :: j !in todo - {k} && Gives(m, j, p) {
      if p in was {
        var j :| j !in todo && Gives(m, j, p);
        assert j !in todo - {k};
      }
      if j :| j !in todo - {k} && Gives(m, j, p) {
        assert j == k || j !in todo;
      }
    }
  }

  /** Two keys that name the same palace with different permissions. */
  ghost predicate Conflict(m: PermMap) {
    exists k, j, p :: Gives(m, k, p) && Gives(m, j, p) && NormList(m[k]) != NormList(m[j])
  }

  /** Some result the walk may give: the one in which key k wins for its palace. */
  ghost function WonBy(m: PermMap, k: bytes): PermMap {
    map p: bytes | p in GivenPalaces(m) :: NormList(m[if Gives(m, k, p) then k else Giver(m, p)])
  }

  ghost function GivenPalaces(m: PermMap): set<bytes> {
    set k <- m.Keys | Gives(m, k, Trim(k)) :: Trim(k)
  }

  ghost function Giver(m: PermMap, p: bytes): (k: bytes)
    requires p in GivenPalaces(m)
    ensures Gives(m, k, p)
  {
    var k :| Gives(m, k, p);
    k
  }

  lemma WonByIsNormal(m: PermMap, k: bytes)
    ensures IsNormal(m, WonBy(m, k))
  {
    hide NormList, Trim;
    var out := WonBy(m, k);
    forall p ensures p in out <==> exists j :: Gives(m, j, p) {
      if j :| Gives(m, j, p) {
        assert j in m.Keys && Gives(m, j, Trim(j));
      }
    }
    forall p | p in out ensures exists j :: Gives(m, j, p) && out[p] == NormList(m[j]) {
      assert Gives(m, if Gives(m, k, p) then k else Giver(m, p), p);
    }
  }

  /** Normalization gives one result whatever the walk's order exactly when no two keys conflict. */
  lemma NormalizeDeterministic(m: PermMap)
    ensures (forall a, b :: IsNormal(m, a) && IsNormal(m, b) ==> a == b) <==> !Conflict(m)
  {
    hide NormList, Trim, IsNormal;
    if Conflict(m) {
      var k, j, p :| Gives(m, k, p) && Gives(m, j, p) && NormList(m[k]) != NormList(m[j]);
      WonByIsNormal(m, k);
      WonByIsNormal(m, j);
      assert k in m.Keys && Gives(m, k, Trim(k));
      assert WonBy(m, k)[p] != WonBy(m, j)[p];
    } else {
      forall a, b | IsNormal(m, a) && IsNormal(m, b) ensures a == b {
        NormalUnique(m, a, b);
      }
    }
  }

  /** A map whose normal form depends on the walk's order: two spellings of one palace. */
  lemma NormalizeAmbiguous()
    ensures var m: PermMap := map["a" := ["logs"], " a" := ["bans"]];
            IsNormal(m, map["a" := ["logs"]]) && IsNormal(m, map["a" := ["bans"]])
  {
    hide NormList;
    var m: PermMap := map["a" := ["logs"], " a" := ["bans"]];
    assert Trim(" a") == "a" && Trim("a") == "a" by {
      assert " a"[1..] == "a";
    }
    NormListOne("logs");
    NormListOne("bans");
    SpelledTwice(m, "a", " a");
    SpelledTwice(m, " a", "a");
  }

  lemma SpelledTwice(m: PermMap, k: bytes, j: bytes)
    requires m.Keys == {k, j} && Trim(k) == Trim(j) != ""
    requires NormList(m[k]) == m[k] != [] && NormList(m[j]) == m[j] != []
    ensures IsNormal(m, map[Trim(k) := m[k]])
  {
    hide NormList, Trim;
    assert Gives(m, k, Trim(k)) && Gives(m, j, Trim(k));
  }

  lemma NormListOne(p: bytes)
    requires p == "logs" || p == "bans"
    ensures NormList([p]) == [p]
  {
    assert Cleaned(p) == p && IsValidPalacePerm(p) by {
      assert Trim(p) == p && ToLower(p) == p;
      assert ALL_PERMS[1] == "logs" && ALL_PERMS[3] == "bans";
    }
    hide Cleaned, IsValidPalacePerm;
    var l := [p];
    assert l[1..] == [] && [] + [p] == l;
    assert Kept(l, []) == Kept(l[1..], l) == l;
    assert SortStrings(l) == Insert(p, SortStrings([]));
  }

  lemma NormalUnique(m: PermMap, a: PermMap, b: PermMap)
    requires !Conflict(m) && IsNormal(m, a) && IsNormal(m, b)
    ensures a == b
  {
    hide NormList, Trim;
    assert forall p :: p in a <==> p in b;
    forall p | p in a ensures a[p] == b[p] {
      var k :| Gives(m, k, p) && a[p] == NormList(m[k]);
      var j :| Gives(m, j, p) && b[p] == NormList(m[j]);
    }
  }

  /** A map as the store keeps it: trimmed names, normal lists, no empty list. */
  ghost predicate Settled(m: PermMap) {
    forall k :: k in m ==> k != "" && Trim(k) == k && m[k] != [] && NormList(m[k]) == m[k]
  }

  lemma NormalIsSettled(m: PermMap, out: PermMap)
    requires IsNormal(m, out)
    ensures Settled(out)
  {
    hide NormList, Trim;
    forall p | p in out ensures p != "" && Trim(p) == p && out[p] != [] && NormList(out[p]) == out[p] {
      var k :| Gives(m, k, p) && out[p] == NormList(m[k]);
      NormListTwice(m[k]);
      TrimTwice(k);
    }
  }

  /** Normalizing what was normalized before changes nothing, in any order. */
  lemma SettledFixed(m: PermMap, out: PermMap)
    requires Settled(m) && IsNormal(m, out)
    ensures out == m
  {
    hide NormList, Trim;
    forall k | k in m ensures k in out {
      assert Gives(m, k, k);
    }
    forall k | k in out ensures k in m && out[k] == m[k] {
      var j :| Gives(m, j, k) && out[k] == NormList(m[j]);
    }
  }

  // ---------- Reading and validating ----------

  /** The permissions at a palace; none when the palace is not a key. */
  function PermsAt(m: PermMap, palace: bytes): seq<bytes> {
    if palace in m then m[palace] else []
  }

  method HasPalacePerm(m: PermMap, palaceName: bytes, perm: bytes) returns (has: bool)
    ensures has <==> perm in PermsAt(m, palaceName)
  {
    if palaceName !in m {
      return false;
    }
    var list := m[palaceName];
    for i := 0 to |list|
      invariant perm !in list[..i]
    {
      if list[i] == perm {
        return true;
      }
    }
    return false;
  }

  datatype PermError = NoPalaces | NotParentPalace(palace: bytes)

  datatype PermCheck = Valid | Invalid(error: PermError)

  predicate Covers(palaces: seq<bytes>, m: PermMap) {
    forall k :: k in m ==> k in palaces
  }

  /** The palaces some key of the map gives permissions for, however the key is spelled. */
  ghost predicate Asks(m: PermMap, p: bytes) {
    exists k :: Gives(m, k, p)
  }

  /** The verdicts validation may give: when it refuses a palace it names one of those it may refuse. */
  ghost predicate MayRule(parentPalaces: seq<bytes>, perms: PermMap, r: PermCheck) {
    match r
    case Valid => (exists p :: Asks(perms, p)) && forall p :: Asks(perms, p) ==> p in TrimmedAll(parentPalaces)
    case Invalid(NoPalaces) => forall p :: !Asks(perms, p)
    case Invalid(NotParentPalace(p)) => Asks(perms, p) && p !in TrimmedAll(parentPalaces)
  }

  /** The verdict on permissions that were normalized before. */
  lemma SettledVerdict(parentPalaces: seq<bytes>, perms: PermMap, r: PermCheck)
    requires Settled(perms) && MayRule(parentPalaces, perms, r)
    ensures r == Invalid(NoPalaces) <==> perms == map[]
    ensures r == Valid <==> perms != map[] && Covers(TrimmedAll(parentPalaces), perms)
  {
    hide NormList, Trim;
    forall p ensures Asks(perms, p) <==> p in perms {
      if p in perms {
        assert Gives(perms, p, p);
      }
    }
    if perms != map[] {
      var p :| p in perms;
    }
  }

  method ValidateSubaccountPalacePerms(parentPalaces: seq<bytes>, perms: PermMap) returns (r: PermCheck)
    ensures MayRule(parentPalaces, perms, r)
  {
    hide NormList, Trim;
    var norm := NormalizePalacePerms(perms);
    assert forall p :: p in norm <==> Asks(perms, p);
    if |norm| == 0 {
      return Invalid(NoPalaces);
    }
    var parentSet: set<bytes> := {};
    for i := 0 to |parentPalaces|
      invariant forall p :: p in parentSet <==> p != "" && p in TrimmedAll(parentPalaces)[..i]
    {
      var p := Trim(parentPalaces[i]);
      if p != "" {
        parentSet := parentSet + {p};
      }
    }
    var todo := norm.Keys;
    while todo != {}
      invariant todo <= norm.Keys
      invariant forall k :: k in norm && k !in todo ==> k in parentSet
      decreases |todo|
    {
      var palace :| palace in todo;
      if palace !in parentSet {
        return Invalid(NotParentPalace(palace));
      }
      todo := todo - {palace};
    }
    return Valid;
  }

  function TrimmedAll(names: seq<bytes>): (r: seq<bytes>)
    ensures |r| == |names| && forall i :: 0 <= i < |names| ==> r[i] == Trim(names[i])
  {
    seq(|names|, i requires 0 <= i < |names| => Trim(names[i]))
  }
}
