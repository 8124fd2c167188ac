/** Command-rank overrides (internal/api/handlers_command_ranks.go, default_command_ranks.go). The table
    of built-in ranks is a parameter; Go walks its maps in no particular order, which is modelled by
    arbitrary choices. */
module CommandRanks {
  import opened Wrappers
  import opened Bytes

  type Ranks = map<bytes, int>

  /** A requested rank; None asks for the built-in default. */
  type Request = map<bytes, Option<int>>

  const IMPLICIT_DEFAULT := 2

  /** rankCommandAliases. */
  const ALIASES: map<bytes, bytes> :=
    map["revision" := "rev", "respond" := "re", "pinx" := "pin", "setface" := "setcolor", "setpos" := "setcolor",
        "join" := "er", "rejoin" := "er", "uban" := "unban", "maxocc" := "maxserverocc", "maxservocc" := "maxserverocc",
        "maxroomocc" := "defaultroomocc", "oppass" := "wizpass", "purge" := "purgelimit", "setrank" := "rankset"]

  /** No alias stands for another alias. */
  ghost predicate Flat(aliases: map<bytes, bytes>) {
    forall a :: a in aliases ==> aliases[a] !in aliases
  }

  // ---------- Names ----------

  function Folded(cmd: bytes): bytes {
    ToLower(Trim(cmd))
  }

  /** The command that owns a key of the override map. */
  function OwnerIn(aliases: map<bytes, bytes>, key: bytes): bytes {
    if key in aliases then aliases[key] else key
  }

  function CanonicalName(cmd: bytes): bytes {
    OwnerIn(ALIASES, Folded(cmd))
  }

  function IntrinsicDefault(defaults: Ranks, cmd: bytes): int {
    var c := Folded(cmd);
    if c in defaults then defaults[c]
    else if CanonicalName(c) != c && CanonicalName(c) in defaults then defaults[CanonicalName(c)]
    else IMPLICIT_DEFAULT
  }

  predicate IsAllowedKey(defaults: Ranks, key: bytes) {
    var k := ToLower(key);
    var t := Trim(k);
    || t in defaults
    || (0 < |t| <= 48 && 'a' <= t[0] <= 'z'
        && forall i :: 0 < i < |t| ==> 'a' <= t[i] <= 'z' || '0' <= t[i] <= '9' || t[i] == '_')
  }

  // ---------- Reading an override ----------

  /** What mergeOverrideForCanonical may return: the command's own override, or else that of any alias. */
  ghost predicate IsMerged(overrides: Ranks, c: bytes, r: Option<int>) {
    if c in overrides then r == Some(overrides[c])
    else if r.Some? then exists a :: a in ALIASES && ALIASES[a] == c && a in overrides && r == Some(overrides[a])
    else forall a :: a in ALIASES && ALIASES[a] == c ==> a !in overrides
  }

  /** The rank a GET row shows. */
  function Effective(defaults: Ranks, c: bytes, merged: Option<int>): int {
    match merged
    case None => IntrinsicDefault(defaults, c)
    case Some(v) => v
  }

  method MergeOverrideForCanonical(canonical: bytes, overrides: Ranks) returns (r: Option<int>)
    ensures IsMerged(overrides, canonical, r)
  {
    hide ALIASES;
    if canonical in overrides {
      return Some(overrides[canonical]);
    }
    var todo := ALIASES.Keys;
    while todo != {}
      invariant todo <= ALIASES.Keys
      invariant forall a :: a in ALIASES && a !in todo && ALIASES[a] == canonical ==> a !in overrides
      decreases |todo|
    {
      var alias :| alias in todo;
      if ALIASES[alias] == canonical && alias in overrides {
        return Some(overrides[alias]);
      }
      todo := todo - {alias};
    }
    return None;
  }

  // ---------- Writing overrides ----------

  /** The keys a command owns: itself and its aliases. */
  predicate Owns(c: bytes, key: bytes) {
    key == c || (key in ALIASES && ALIASES[key] == c)
  }

  function WithoutOwned(overrides: Ranks, c: bytes): Ranks {
    map k | k in overrides && !Owns(c, k) :: overrides[k]
  }

  /** One turn of the PUT loop. */
  function PutOne(defaults: Ranks, overrides: Ranks, c: bytes, p: Option<int>): Ranks {
    var cleared := WithoutOwned(overrides, c);
    if p.None? || p.value == IntrinsicDefault(defaults, c) then cleared else cleared[c := p.value]
  }

  /** What the whole PUT does to one key, told without any order. */
  function PutAt(defaults: Ranks, overrides: Ranks, req: Request, k: bytes): Option<int> {
    var c := OwnerIn(ALIASES, k);
    if c !in req then if k in overrides then Some(overrides[k]) else None
    else if k == c && req[c].Some? && req[c].value != IntrinsicDefault(defaults, c) then req[c]
    else None
  }

  function Slot(overrides: Ranks, k: bytes): Option<int> {
    if k in overrides then Some(overrides[k]) else None
  }

  ghost predicate IsPut(defaults: Ranks, overrides: Ranks, req: Request, out: Ranks) {
    forall k :: Slot(out, k) == PutAt(defaults, overrides, req, k)
  }

  /** Requested names are canonical. */
  ghost predicate Canonical(req: Request) {
    forall c :: c in req ==> c !in ALIASES
  }

  class Overrides {
    var m: Ranks

    constructor (start: Ranks)
      ensures m == start
    {
      m := start;
    }

    method DeleteRankOverrideAndAliases(canonical: bytes)
      modifies this
      ensures m == WithoutOwned(old(m), canonical)
    {
      hide ALIASES;
      m := m - {canonical};
      var todo := ALIASES.Keys;
      while todo != {}
        invariant todo <= ALIASES.Keys
        invariant forall k :: k in m <==> k in old(m) && k != canonical && !(k in ALIASES && k !in todo && ALIASES[k] == canonical)
        invariant forall k :: k in m ==> m[k] == old(m)[k]
        decreases |todo|
      {
        var alias :| alias in todo;
        if ALIASES[alias] == canonical {
          m := m - {alias};
        }
        todo := todo - {alias};
      }
      assert m == WithoutOwned(old(m), canonical);
    }

    /** The override loop of the PUT handler, over the normalized request in any order. */
    method Put(defaults: Ranks, req: Request)
      requires Canonical(req)
      modifies this
      ensures IsPut(defaults, old(m), req, m)
    {
      hide ALIASES, IntrinsicDefault, PutAt, WithoutOwned;
      var todo := req.Keys;
      NothingPut(defaults, m);
      assert Restricted(req, req.Keys - todo) == map[];
      while todo != {}
        invariant todo <= req.Keys
        invariant IsPut(defaults, old(m), Restricted(req, req.Keys - todo), m)
        decreases |todo|
      {
        var cmd :| cmd in todo;
        ghost var before, was := todo, m;
        var p := req[cmd];
        if p.None? {
          DeleteRankOverrideAndAliases(cmd);
        } else {
          var def := IntrinsicDefault(defaults, cmd);
          if p.value == def {
            DeleteRankOverrideAndAliases(cmd);
          } else {
            DeleteRankOverrideAndAliases(cmd);
            m := m[cmd := p.value];
          }
        }
        todo := todo - {cmd};
        PutNext(defaults, old(m), Restricted(req, req.Keys - before), was, cmd, p, m);
        assert Restricted(req, req.Keys - todo) == Restricted(req, req.Keys - before)[cmd := p];
      }
      assert Restricted(req, req.Keys - todo) == req;
    }
  }

  function Restricted(req: Request, keys: set<bytes>): Request {
    map c | c in req && c in keys :: req[c]
  }

  lemma NothingPut(defaults: Ranks, overrides: Ranks)
    ensures IsPut(defaults, overrides, map[], overrides)
  {
    hide ALIASES, IntrinsicDefault;
  }

  /** Distinct canonical commands own disjoint keys, so one more turn only touches the keys of its own command. */
  lemma PutNext(defaults: Ranks, orig: Ranks, done: Request, was: Ranks, c: bytes, p: Option<int>, out: Ranks)
    requires IsPut(defaults, orig, done, was) && c !in done && c !in ALIASES
    requires out == PutOne(defaults, was, c, p)
    ensures IsPut(defaults, orig, done[c := p], out)
  {
    hide ALIASES, IntrinsicDefault;
    forall k ensures Slot(out, k) == PutAt(defaults, orig, done[c := p], k) {
      assert Slot(was, k) == PutAt(defaults, orig, done, k);
      assert Owns(c, k) <==> OwnerIn(ALIASES, k) == c;
    }
  }

  lemma SameSlots(a: Ranks, b: Ranks)
    requires forall k :: Slot(a, k) == Slot(b, k)
    ensures a == b
  {
    forall k ensures k in a <==> k in b {
      assert Slot(a, k) == Slot(b, k);
    }
    forall k | k in a ensures a[k] == b[k] {
      assert Slot(a, k) == Slot(b, k);
    }
  }

  /** The PUT does not depend on the order in which the request is walked. */
  lemma PutOrderFree(defaults: Ranks, overrides: Ranks, req: Request, a: Ranks, b: Ranks)
    requires IsPut(defaults, overrides, req, a) && IsPut(defaults, overrides, req, b)
    ensures a == b
  {
    hide PutAt, Slot;
    forall k ensures Slot(a, k) == Slot(b, k) {
      assert Slot(a, k) == PutAt(defaults, overrides, req, k);
    }
    SameSlots(a, b);
  }

  /** After a PUT each requested command has no alias override left, and any GET shows the requested rank,
      or the built-in default for null. */
  lemma PutShown(defaults: Ranks, overrides: Ranks, req: Request, out: Ranks, c: bytes, r: Option<int>)
    requires IsPut(defaults, overrides, req, out) && Canonical(req) && c in req
    ensures forall a :: a in ALIASES && ALIASES[a] == c ==> a !in out
    ensures IsMerged(out, c, r) ==>
              Effective(defaults, c, r) == if req[c].Some? then req[c].value else IntrinsicDefault(defaults, c)
  {
    hide ALIASES, IntrinsicDefault;
    forall a | a in ALIASES && ALIASES[a] == c ensures a !in out {
      assert Slot(out, a) == PutAt(defaults, overrides, req, a);
    }
    assert Slot(out, c) == PutAt(defaults, overrides, req, c);
  }

  /** A PUT leaves the overrides, and what a GET may show, of every other command as they were. */
  lemma PutElsewhere(defaults: Ranks, overrides: Ranks, req: Request, out: Ranks, k: bytes, c: bytes, r: Option<int>)
    requires IsPut(defaults, overrides, req, out)
    ensures OwnerIn(ALIASES, k) !in req ==> Slot(out, k) == Slot(overrides, k)
    ensures c !in req && c !in ALIASES ==> (IsMerged(out, c, r) <==> IsMerged(overrides, c, r))
  {
    hide ALIASES, IntrinsicDefault;
    assert Slot(out, k) == PutAt(defaults, overrides, req, k);
    if c !in req && c !in ALIASES {
      assert Slot(out, c) == PutAt(defaults, overrides, req, c);
      forall a | a in ALIASES && ALIASES[a] == c ensures Slot(out, a) == Slot(overrides, a) {
        assert Slot(out, a) == PutAt(defaults, overrides, req, a);
      }
    }
  }

  /** Repeating a PUT changes nothing. */
  lemma PutTwice(defaults: Ranks, overrides: Ranks, req: Request, once: Ranks, twice: Ranks)
    requires IsPut(defaults, overrides, req, once) && IsPut(defaults, once, req, twice)
    ensures twice == once
  {
    hide ALIASES, IntrinsicDefault;
    forall k ensures Slot(twice, k) == Slot(once, k) {
      assert Slot(once, k) == PutAt(defaults, overrides, req, k);
      assert Slot(twice, k) == PutAt(defaults, once, req, k);
    }
    SameSlots(twice, once);
  }

  predicate AliasOverride(overrides: Ranks, c: bytes, a: bytes) {
    a in ALIASES && ALIASES[a] == c && a in overrides
  }

  ghost predicate AliasesAgree(overrides: Ranks, c: bytes) {
    forall a, b :: AliasOverride(overrides, c, a) && AliasOverride(overrides, c, b) ==> overrides[a] == overrides[b]
  }

  /** A GET row is determined exactly when the command has its own override or its aliases agree. */
  lemma GetDeterministic(overrides: Ranks, c: bytes)
    ensures (forall r, s :: IsMerged(overrides, c, r) && IsMerged(overrides, c, s) ==> r == s) <==>
            (c in overrides || AliasesAgree(overrides, c))
  {
    hide ALIASES;
    if c !in overrides {
      if a, b :| AliasOverride(overrides, c, a) && AliasOverride(overrides, c, b) && overrides[a] != overrides[b] {
        assert IsMerged(overrides, c, Some(overrides[a])) && IsMerged(overrides, c, Some(overrides[b]));
      }
    }
  }

  /** Overrides of two aliases and none of the command itself: a GET may show either. */
  lemma GetAmbiguous()
    ensures var overrides: Ranks := map["join" := 1, "rejoin" := 3];
            IsMerged(overrides, "er", Some(1)) && IsMerged(overrides, "er", Some(3))
  {
    var overrides: Ranks := map["join" := 1, "rejoin" := 3];
    assert "er" !in overrides;
    assert AliasOverride(overrides, "er", "join") && AliasOverride(overrides, "er", "rejoin");
  }

  // ---------- The request ----------

  /** The requests normalization may give: of two keys with the same canonical name, the one met last wins. */
  ghost predicate IsNormRequest(raw: Request, norm: Request) {
    && (forall c :: c in norm <==> exists k :: k in raw && CanonicalName(k) == c)
    && (forall c :: c in norm ==> exists k :: k in raw && CanonicalName(k) == c && norm[c] == raw[k])
  }

  /** Two spellings of one command that ask for different ranks. */
  ghost predicate Clash(raw: Request) {
    exists j, k :: j in raw && k in raw && CanonicalName(j) == CanonicalName(k) && raw[j] != raw[k]
  }

  ghost function CanonicalNames(raw: Request): set<bytes> {
    set k <- raw.Keys :: CanonicalName(k)
  }

  ghost function Speller(raw: Request, c: bytes): (k: bytes)
    requires c in CanonicalNames(raw)
    ensures k in raw && CanonicalName(k) == c
  {
    var k :| k in raw.Keys && CanonicalName(k) == c;
    k
  }

  /** The normalized request in which key k is met last. */
  ghost function MetLast(raw: Request, k: bytes): Request {
    map c | c in CanonicalNames(raw) :: raw[if k in raw && CanonicalName(k) == c then k else Speller(raw, c)]
  }

  lemma MetLastIsNorm(raw: Request, k: bytes)
    ensures IsNormRequest(raw, MetLast(raw, k))
  {
    hide CanonicalName;
    var norm := MetLast(raw, k);
    forall c ensures c in norm <==> exists j :: j in raw && CanonicalName(j) == c {
      if j :| j in raw && CanonicalName(j) == c {
        assert j in raw.Keys;
      }
    }
    forall c | c in norm ensures exists j :: j in raw && CanonicalName(j) == c && norm[c] == raw[j] {
      var j := if k in raw && CanonicalName(k) == c then k else Speller(raw, c);
      assert j in raw && CanonicalName(j) == c && norm[c] == raw[j];
    }
  }

  /** The normalized request depends on the walk's order exactly when two spellings of one command clash. */
  lemma NormRequestDeterministic(raw: Request)
    ensures (forall a, b :: IsNormRequest(raw, a) && IsNormRequest(raw, b) ==> a == b) <==> !Clash(raw)
  {
    hide CanonicalName, IsNormRequest;
    if Clash(raw) {
      var j, k :| j in raw && k in raw && CanonicalName(j) == CanonicalName(k) && raw[j] != raw[k];
      MetLastIsNorm(raw, j);
      MetLastIsNorm(raw, k);
      assert j in raw.Keys && CanonicalName(j) in CanonicalNames(raw);
      assert MetLast(raw, j)[CanonicalName(j)] != MetLast(raw, k)[CanonicalName(j)];
    } else {
      forall a, b | IsNormRequest(raw, a) && IsNormRequest(raw, b) ensures a == b {
        NormUnique(raw, a, b);
      }
    }
  }

  lemma NormUnique(raw: Request, a: Request, b: Request)
    requires !Clash(raw) && IsNormRequest(raw, a) && IsNormRequest(raw, b)
    ensures a == b
  {
    hide CanonicalName;
    assert forall c :: c in a <==> c in b;
    forall c | c in a ensures a[c] == b[c] {
      var j :| j in raw && CanonicalName(j) == c && a[c] == raw[j];
      var k :| k in raw && CanonicalName(k) == c && b[c] == raw[k];
    }
  }

  lemma ShortNamesAreFlat()
    ensures "rev" !in ALIASES && "re" !in ALIASES && "pin" !in ALIASES && "er" !in ALIASES && "unban" !in ALIASES
  {
  }

  lemma LongNamesAreFlat()
    ensures "setcolor" !in ALIASES && "maxserverocc" !in ALIASES && "defaultroomocc" !in ALIASES
    ensures "wizpass" !in ALIASES && "purgelimit" !in ALIASES && "rankset" !in ALIASES
  {
    assert "rankset"[1] != "respond"[1];
  }

  /** No canonical name of the table is an alias, so the names of a normalized request are canonical. */
  lemma AliasesAreFlat()
    ensures Flat(ALIASES)
  {
    ShortNamesAreFlat();
    LongNamesAreFlat();
  }

  lemma NormIsCanonical(raw: Request, norm: Request)
    requires IsNormRequest(raw, norm)
    ensures Canonical(norm)
  {
    hide ALIASES, Folded;
    AliasesAreFlat();
  }

  // ---------- The handler ----------

  datatype PutResult = BadName | NothingRequested | BadRank | Saved(overrides: Ranks)

  predicate NamesAllowed(defaults: Ranks, raw: Request) {
    forall k :: k in raw ==> IsAllowedKey(defaults, Folded(k))
  }

  predicate RanksAllowed(req: Request) {
    forall c :: c in req && req[c].Some? ==> 0 <= req[c].value <= 4
  }

  method NormalizeRequest(defaults: Ranks, raw: Request) returns (norm: Request, ok: bool)
    ensures ok <==> NamesAllowed(defaults, raw)
    ensures ok ==> IsNormRequest(raw, norm)
  {
    hide ALIASES, Folded, IsAllowedKey;
    norm := map[];
    var todo := raw.Keys;
    while todo != {}
      invariant todo <= raw.Keys
      invariant forall k :: k in raw && k !in todo ==> IsAllowedKey(defaults, Folded(k))
      invariant forall c :: c in norm <==> exists k :: k in raw && k !in todo && CanonicalName(k) == c
      invariant forall c :: c in norm ==> exists k :: k in raw && CanonicalName(k) == c && norm[c] == raw[k]
      decreases |todo|
    {
      var k :| k in todo;
      ghost var before, was := todo, norm;
      var ks := Folded(k);
      if !IsAllowedKey(defaults, ks) {
        return norm, false;
      }
      var canon := CanonicalName(ks);
      FoldedTwice(k);
      norm := norm[canon := raw[k]];
      todo := todo - {k};
      forall c ensures c in norm <==> exists j :: j in raw && j !in todo && CanonicalName(j) == c {
        if c in was {
          var j :| j in raw && j !in before && CanonicalName(j) == c;
          assert j !in todo;
        }
        if j :| j in raw && j !in todo && CanonicalName(j) == c {
          assert j == k || j !in before;
        }
      }
    }
    return norm, true;
  }

  lemma FoldedTwice(cmd: bytes)
    ensures CanonicalName(Folded(cmd)) == CanonicalName(cmd)
  {
    hide ALIASES, Trim;
    var t := Trim(cmd);
    LowerTrimmed(t);
    TrimFixed(ToLower(t));
    assert ToLower(ToLower(t)) == ToLower(t);
  }

  lemma LowerTrimmed(t: bytes)
    requires Trimmed(t)
    ensures Trimmed(ToLower(t))
  {
  }

  method AllRanksAllowed(req: Request) returns (ok: bool)
    ensures ok <==> RanksAllowed(req)
  {
    var todo := req.Keys;
    while todo != {}
      invariant todo <= req.Keys
      invariant forall c :: c in req && c !in todo && req[c].Some? ==> 0 <= req[c].value <= 4
      decreases |todo|
    {
      var cmd :| cmd in todo;
      todo := todo - {cmd};
      var p := req[cmd];
      if p.None? {
        continue;
      }
      if p.value < 0 || p.value > 4 {
        return false;
      }
    }
    return true;
  }

  /** The answers the handler may give, by what normalization happens to make of the request. */
  ghost predicate MayAnswer(defaults: Ranks, overrides: Ranks, raw: Request, r: PutResult) {
    if !NamesAllowed(defaults, raw) then r == BadName
    else if raw == map[] then r == NothingRequested
    else exists norm :: IsNormRequest(raw, norm) && AnswersNorm(defaults, overrides, norm, r)
  }

  ghost predicate AnswersNorm(defaults: Ranks, overrides: Ranks, norm: Request, r: PutResult) {
    if RanksAllowed(norm) then r.Saved? && IsPut(defaults, overrides, norm, r.overrides) else r == BadRank
  }

  /** handleCommandRanksPut between decoding the request and writing the file. */
  method HandlePut(defaults: Ranks, raw: Request, overrides: Ranks) returns (r: PutResult)
    ensures MayAnswer(defaults, overrides, raw, r)
  {
    hide ALIASES, Folded, IsAllowedKey, PutAt, IsPut, CanonicalName;
    var norm, ok := NormalizeRequest(defaults, raw);
    if !ok {
      return BadName;
    }
    NormIsCanonical(raw, norm);
    NormEmpty(raw, norm);
    if |norm| == 0 {
      return NothingRequested;
    }
    ok := AllRanksAllowed(norm);
    if !ok {
      assert AnswersNorm(defaults, overrides, norm, BadRank);
      return BadRank;
    }
    var o := new Overrides(overrides);
    o.Put(defaults, norm);
    assert AnswersNorm(defaults, overrides, norm, Saved(o.m));
    return Saved(o.m);
  }

  lemma NormEmpty(raw: Request, norm: Request)
    requires IsNormRequest(raw, norm)
    ensures norm == map[] <==> raw == map[]
  {
    hide CanonicalName;
    if raw != map[] {
      var k :| k in raw;
      assert CanonicalName(k) in norm;
    }
  }

  // ---------- When the answer does not depend on the walk ----------

  predicate InRange(p: Option<int>) {
    p.Some? ==> 0 <= p.value <= 4
  }

  /** What a requested rank leaves as the command's override: null and the built-in default leave none. */
  function Effect(defaults: Ranks, c: bytes, p: Option<int>): Option<int> {
    if p.Some? && p.value == IntrinsicDefault(defaults, c) then None else p
  }

  /** A command whose spellings all ask for a rank out of range. */
  ghost predicate Doomed(raw: Request) {
    exists k :: DoomedAt(raw, k)
  }

  ghost predicate DoomedAt(raw: Request, k: bytes) {
    k in raw && forall j :: j in raw && CanonicalName(j) == CanonicalName(k) ==> !InRange(raw[j])
  }

  /** Spellings of one command agree once null and the built-in default are the same. */
  ghost predicate EffectsAgree(defaults: Ranks, raw: Request) {
    forall j, k :: j in raw && k in raw && CanonicalName(j) == CanonicalName(k) ==>
      Effect(defaults, CanonicalName(j), raw[j]) == Effect(defaults, CanonicalName(k), raw[k])
  }

  ghost predicate Settling(defaults: Ranks, raw: Request) {
    Doomed(raw) || ((forall k :: k in raw ==> InRange(raw[k])) && EffectsAgree(defaults, raw))
  }

  lemma PutAtEffect(defaults: Ranks, overrides: Ranks, req: Request, k: bytes)
    ensures PutAt(defaults, overrides, req, k) ==
            var c := OwnerIn(ALIASES, k);
            if c !in req then Slot(overrides, k) else if k == c then Effect(defaults, c, req[c]) else None
  {
    hide ALIASES, IntrinsicDefault;
  }

  /** Some map that a PUT of a normalized request leaves. */
  function PutMap(defaults: Ranks, overrides: Ranks, req: Request): Ranks {
    map k | k in overrides.Keys + req.Keys && PutAt(defaults, overrides, req, k).Some? :: PutAt(defaults, overrides, req, k).value
  }

  lemma PutMapIsPut(defaults: Ranks, overrides: Ranks, req: Request)
    ensures IsPut(defaults, overrides, req, PutMap(defaults, overrides, req))
  {
    hide ALIASES, IntrinsicDefault;
  }

  predicate GoodFor(raw: Request, c: bytes, k: bytes) {
    k in raw && CanonicalName(k) == c && InRange(raw[k])
  }

  /** Unless the request is doomed, every command has a spelling with a rank in range. */
  lemma GoodExists(raw: Request, k: bytes)
    requires k in raw && !Doomed(raw)
    ensures exists j :: GoodFor(raw, CanonicalName(k), j)
  {
    hide CanonicalName, InRange;
    assert !DoomedAt(raw, k);
    var j :| j in raw && CanonicalName(j) == CanonicalName(k) && InRange(raw[j]);
    assert GoodFor(raw, CanonicalName(k), j);
  }

  ghost function GoodSpeller(raw: Request, c: bytes): (k: bytes)
    requires exists j :: GoodFor(raw, c, j)
    ensures GoodFor(raw, c, k)
  {
    var k :| GoodFor(raw, c, k);
    k
  }

  /** The normalized request in which key k is met last and every other command gets a rank in range. */
  ghost function GoodBut(raw: Request, k: bytes): Request {
    map c | c in CanonicalNames(raw) ::
      if k in raw && CanonicalName(k) == c then raw[k]
      else if exists j :: GoodFor(raw, c, j) then raw[GoodSpeller(raw, c)]
      else raw[Speller(raw, c)]
  }

  lemma GoodButIsNorm(raw: Request, k: bytes)
    requires k in raw && !Doomed(raw)
    ensures IsNormRequest(raw, GoodBut(raw, k))
    ensures CanonicalName(k) in GoodBut(raw, k) && GoodBut(raw, k)[CanonicalName(k)] == raw[k]
    ensures RanksAllowed(GoodBut(raw, k)) <==> InRange(raw[k])
  {
    hide CanonicalName, Doomed;
    var norm := GoodBut(raw, k);
    assert k in raw.Keys && CanonicalName(k) in CanonicalNames(raw);
    forall c ensures c in norm <==> exists j :: j in raw && CanonicalName(j) == c {
      if j :| j in raw && CanonicalName(j) == c {
        assert j in raw.Keys;
      }
    }
    forall c | c in norm && c != CanonicalName(k)
      ensures (exists j :: j in raw && CanonicalName(j) == c && norm[c] == raw[j]) && InRange(norm[c])
    {
      GoodExists(raw, Speller(raw, c));
      assert GoodFor(raw, c, GoodSpeller(raw, c)) && norm[c] == raw[GoodSpeller(raw, c)];
    }
  }

  /** The answer in which key k is met last. */
  lemma AnswerBut(defaults: Ranks, overrides: Ranks, raw: Request, k: bytes)
    returns (r: PutResult)
    requires k in raw && !Doomed(raw) && NamesAllowed(defaults, raw)
    ensures MayAnswer(defaults, overrides, raw, r) && (InRange(raw[k]) <==> r.Saved?)
    ensures r.Saved? ==> Slot(r.overrides, CanonicalName(k)) == Effect(defaults, CanonicalName(k), raw[k])
  {
    hide Folded, ALIASES, IntrinsicDefault, NamesAllowed, Doomed, IsNormRequest, PutAt, PutMap, Effect, RanksAllowed, IsPut;
    var norm := GoodBut(raw, k);
    var c := CanonicalName(k);
    GoodButIsNorm(raw, k);
    PutMapIsPut(defaults, overrides, norm);
    r := if InRange(raw[k]) then Saved(PutMap(defaults, overrides, norm)) else BadRank;
    assert AnswersNorm(defaults, overrides, norm, r);
    if r.Saved? {
      CanonicalSlot(defaults, overrides, norm, r.overrides, k);
    }
  }

  lemma CanonicalSlot(defaults: Ranks, overrides: Ranks, norm: Request, out: Ranks, k: bytes)
    requires IsPut(defaults, overrides, norm, out) && CanonicalName(k) in norm
    ensures Slot(out, CanonicalName(k)) == Effect(defaults, CanonicalName(k), norm[CanonicalName(k)])
  {
    hide Folded, ALIASES, IntrinsicDefault, PutAt, Slot, Effect;
    var c := CanonicalName(k);
    AliasesAreFlat();
    PutAtEffect(defaults, overrides, norm, c);
    assert Slot(out, c) == PutAt(defaults, overrides, norm, c);
  }

  lemma DoomedAnswer(defaults: Ranks, overrides: Ranks, raw: Request, norm: Request)
    requires Doomed(raw) && IsNormRequest(raw, norm)
    ensures !RanksAllowed(norm)
  {
    hide CanonicalName;
    var k :| DoomedAt(raw, k);
    assert CanonicalName(k) in norm;
  }

  lemma SameEffects(defaults: Ranks, overrides: Ranks, raw: Request, n1: Request, n2: Request, o1: Ranks, o2: Ranks)
    requires EffectsAgree(defaults, raw) && IsNormRequest(raw, n1) && IsNormRequest(raw, n2)
    requires IsPut(defaults, overrides, n1, o1) && IsPut(defaults, overrides, n2, o2)
    ensures o1 == o2
  {
    hide CanonicalName, ALIASES, PutAt, Slot, Effect, OwnerIn;
    forall k ensures Slot(o1, k) == Slot(o2, k) {
      var c := OwnerIn(ALIASES, k);
      PutAtEffect(defaults, overrides, n1, k);
      PutAtEffect(defaults, overrides, n2, k);
      assert Slot(o1, k) == PutAt(defaults, overrides, n1, k) && Slot(o2, k) == PutAt(defaults, overrides, n2, k);
      assert c in n1 <==> c in n2;
      if c in n1 {
        var i :| i in raw && CanonicalName(i) == c && n1[c] == raw[i];
        var j :| j in raw && CanonicalName(j) == c && n2[c] == raw[j];
      }
    }
    SameSlots(o1, o2);
  }

  lemma NormRanks(raw: Request, norm: Request)
    requires IsNormRequest(raw, norm) && forall k :: k in raw ==> InRange(raw[k])
    ensures RanksAllowed(norm)
  {
    hide CanonicalName;
  }

  lemma SettledAnswer(defaults: Ranks, overrides: Ranks, raw: Request, r: PutResult, q: PutResult)
    requires Settling(defaults, raw) && MayAnswer(defaults, overrides, raw, r) && MayAnswer(defaults, overrides, raw, q)
    ensures r == q
  {
    hide NamesAllowed, Doomed, EffectsAgree, IsNormRequest, RanksAllowed, IsPut;
    if NamesAllowed(defaults, raw) && raw != map[] {
      var n1 :| IsNormRequest(raw, n1) && AnswersNorm(defaults, overrides, n1, r);
      var n2 :| IsNormRequest(raw, n2) && AnswersNorm(defaults, overrides, n2, q);
      if Doomed(raw) {
        DoomedAnswer(defaults, overrides, raw, n1);
        DoomedAnswer(defaults, overrides, raw, n2);
      } else {
        NormRanks(raw, n1);
        NormRanks(raw, n2);
        SameEffects(defaults, overrides, raw, n1, n2, r.overrides, q.overrides);
      }
    }
  }

  /** The answer of a PUT depends on the order in which the request is walked, unless a name is refused anyway,
      or some command can only be refused, or all ranks are in range and the spellings of each command agree, null
      and the built-in default being the same. */
  lemma PutDeterministic(defaults: Ranks, overrides: Ranks, raw: Request)
    ensures (forall r, q :: MayAnswer(defaults, overrides, raw, r) && MayAnswer(defaults, overrides, raw, q) ==> r == q)
            <==> (!NamesAllowed(defaults, raw) || Settling(defaults, raw))
  {
    hide NamesAllowed, Doomed, MayAnswer, CanonicalName, Effect, Slot, InRange;
    if NamesAllowed(defaults, raw) && !Settling(defaults, raw) {
      if k :| k in raw && !InRange(raw[k]) {
        var r := AnswerBut(defaults, overrides, raw, k);
        var j := InRangeKey(raw, k);
        var q := AnswerBut(defaults, overrides, raw, j);
      } else {
        var j, k :| j in raw && k in raw && CanonicalName(j) == CanonicalName(k) &&
          Effect(defaults, CanonicalName(j), raw[j]) != Effect(defaults, CanonicalName(k), raw[k]);
        var r := AnswerBut(defaults, overrides, raw, j);
        var q := AnswerBut(defaults, overrides, raw, k);
      }
    } else {
      forall r, q | MayAnswer(defaults, overrides, raw, r) && MayAnswer(defaults, overrides, raw, q) ensures r == q {
        if NamesAllowed(defaults, raw) {
          SettledAnswer(defaults, overrides, raw, r, q);
        } else {
          RefusedAnswer(defaults, overrides, raw, r);
          RefusedAnswer(defaults, overrides, raw, q);
        }
      }
    }
  }

  lemma RefusedAnswer(defaults: Ranks, overrides: Ranks, raw: Request, r: PutResult)
    requires !NamesAllowed(defaults, raw) && MayAnswer(defaults, overrides, raw, r)
    ensures r == BadName
  {
  }

  lemma InRangeKey(raw: Request, k: bytes) returns (j: bytes)
    requires k in raw && !Doomed(raw)
    ensures j in raw && InRange(raw[j])
  {
    hide CanonicalName, Doomed;
    GoodExists(raw, k);
    j :| GoodFor(raw, CanonicalName(k), j);
  }

  lemma JoinIsEr(defaults: Ranks)
    ensures CanonicalName("join") == "er" && CanonicalName("er") == "er"
    ensures IsAllowedKey(defaults, Folded("join")) && IsAllowedKey(defaults, Folded("er"))
  {
    assert Folded("join") == "join" && Folded("er") == "er" by {
      TrimFixed("join");
      TrimFixed("er");
      assert ToLower("join") == "join" && ToLower("er") == "er";
    }
    TrimFixed("join");
    TrimFixed("er");
    assert ToLower("join") == "join" && ToLower("er") == "er";
    ShortNamesAreFlat();
    assert "join" in ALIASES && ALIASES["join"] == "er";
  }

  lemma TwoSpellings(defaults: Ranks, a: bytes, b: bytes, p: Option<int>, q: Option<int>)
    requires a != b && CanonicalName(a) == CanonicalName(b) && InRange(q)
    requires IsAllowedKey(defaults, Folded(a)) && IsAllowedKey(defaults, Folded(b))
    ensures NamesAllowed(defaults, map[a := p, b := q]) && !Doomed(map[a := p, b := q])
  {
    hide CanonicalName, IsAllowedKey, Folded;
  }

  /** One rank for a command and another for its alias: which one is saved depends on the walk. */
  lemma SavedRankAmbiguous(defaults: Ranks, overrides: Ranks)
    returns (r: PutResult, q: PutResult)
    requires IntrinsicDefault(defaults, "er") == 2
    ensures MayAnswer(defaults, overrides, map["join" := Some(1), "er" := Some(3)], r)
    ensures MayAnswer(defaults, overrides, map["join" := Some(1), "er" := Some(3)], q)
    ensures r.Saved? && Slot(r.overrides, "er") == Some(1) && q.Saved? && Slot(q.overrides, "er") == Some(3)
  {
    hide CanonicalName, IsAllowedKey, MayAnswer, IntrinsicDefault, Folded, ALIASES, Slot, Doomed, NamesAllowed;
    var raw: Request := map["join" := Some(1), "er" := Some(3)];
    JoinIsEr(defaults);
    TwoSpellings(defaults, "join", "er", Some(1), Some(3));
    r := AnswerBut(defaults, overrides, raw, "join");
    q := AnswerBut(defaults, overrides, raw, "er");
  }

  /** A rank out of range under one spelling only: whether the request is refused depends on the walk. */
  lemma RefusalAmbiguous(defaults: Ranks, overrides: Ranks)
    returns (r: PutResult, q: PutResult)
    ensures MayAnswer(defaults, overrides, map["join" := Some(9), "er" := Some(3)], r)
    ensures MayAnswer(defaults, overrides, map["join" := Some(9), "er" := Some(3)], q)
    ensures !r.Saved? && q.Saved?
  {
    hide CanonicalName, IsAllowedKey, MayAnswer, Folded, ALIASES, Slot, Doomed, NamesAllowed, Effect;
    var raw: Request := map["join" := Some(9), "er" := Some(3)];
    JoinIsEr(defaults);
    TwoSpellings(defaults, "join", "er", Some(9), Some(3));
    r := AnswerBut(defaults, overrides, raw, "join");
    q := AnswerBut(defaults, overrides, raw, "er");
  }
}
