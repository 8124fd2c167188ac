/** What a PUT of command ranks leaves to be shown, told from the table of built-in ranks and the request,
    and which names it allows. */
module CommandRankLaws {
  import opened Wrappers
  import opened Bytes
  import opened CommandRanks

  // ---------- Built-in ranks ----------

  lemma FoldedPadded(left: bytes, w: bytes, right: bytes)
    requires AllSpace(left) && AllSpace(right) && Trimmed(w)
    ensures Folded(left + w + right) == ToLower(w) && Folded(ToLower(w)) == ToLower(w)
  {
    hide Trim;
    TrimPadded(left, w, right);
    LowerTrimmed(w);
    TrimFixed(ToLower(w));
    LowerTwice(w);
  }

  lemma LowerTwice(w: bytes)
    ensures ToLower(ToLower(w)) == ToLower(w)
  {
  }

  /** The built-in rank of a command under any case and padding: the table's rank of the name, or else of the
      command it is an alias of, or else wizard. */
  lemma BuiltInRank(defaults: Ranks, left: bytes, w: bytes, right: bytes)
    requires AllSpace(left) && AllSpace(right) && Trimmed(w)
    ensures var name, rank := ToLower(w), IntrinsicDefault(defaults, left + w + right);
            && (name in defaults ==> rank == defaults[name])
            && (name !in defaults && name in ALIASES && ALIASES[name] in defaults ==> rank == defaults[ALIASES[name]])
            && (name !in defaults && (name in ALIASES ==> ALIASES[name] !in defaults) ==> rank == 2)
  {
    hide ALIASES, Folded, ToLower, Trim;
    FoldedPadded(left, w, right);
  }

  /** The command a name stands for, under any case and padding. */
  lemma CommandMeant(left: bytes, w: bytes, right: bytes)
    requires AllSpace(left) && AllSpace(right) && Trimmed(w)
    ensures var name := ToLower(w);
            CanonicalName(left + w + right) == if name in ALIASES then ALIASES[name] else name
  {
    hide ALIASES, Folded, ToLower, Trim;
    FoldedPadded(left, w, right);
  }

  // ---------- Names ----------

  /** Lower-case letters, digits and underscores, beginning with a letter. */
  predicate IsPlainName(name: bytes) {
    && 0 < |name| <= 48 && name[0] in "abcdefghijklmnopqrstuvwxyz"
    && forall i :: 0 <= i < |name| ==> name[i] in "abcdefghijklmnopqrstuvwxyz0123456789_"
  }

  lemma LetterListed(c: byte)
    ensures 'a' <= c <= 'z' <==> c in "abcdefghijklmnopqrstuvwxyz"
  {
  }

  lemma NameByteListed(c: byte)
    ensures 'a' <= c <= 'z' || '0' <= c <= '9' || c == '_' <==> c in "abcdefghijklmnopqrstuvwxyz0123456789_"
  {
  }

  predicate StartsLikeName(t: bytes) {
    0 < |t| <= 48 && 'a' <= t[0] <= 'z' && forall i :: 0 < i < |t| ==> 'a' <= t[i] <= 'z' || '0' <= t[i] <= '9' || t[i] == '_'
  }

  lemma PlainNameListed(t: bytes)
    ensures IsPlainName(t) <==> StartsLikeName(t)
  {
    forall i: nat | i < |t|
      ensures 'a' <= t[i] <= 'z' || '0' <= t[i] <= '9' || t[i] == '_' <==> t[i] in "abcdefghijklmnopqrstuvwxyz0123456789_"
      ensures 'a' <= t[i] <= 'z' <==> t[i] in "abcdefghijklmnopqrstuvwxyz"
    {
      LetterListed(t[i]);
      NameByteListed(t[i]);
    }
  }

  /** A name is allowed when it is in the table or is plain, under any case and padding. */
  lemma NameAllowedIff(defaults: Ranks, left: bytes, w: bytes, right: bytes)
    requires AllSpace(left) && AllSpace(right) && Trimmed(w)
    ensures IsAllowedKey(defaults, Folded(left + w + right)) <==> ToLower(w) in defaults || IsPlainName(ToLower(w))
  {
    hide ALIASES, IsPlainName, ToLower, Trim, Folded;
    FoldedPadded(left, w, right);
    LowerTwice(w);
    FoldedIsTrimmed(ToLower(w));
    PlainNameListed(ToLower(w));
  }

  lemma FoldedIsTrimmed(t: bytes)
    requires Folded(t) == t && ToLower(t) == t
    ensures Trim(t) == t
  {
    hide Trim, ToLower;
    LowerTrimmed(Trim(t));
    assert ToLower(Trim(t)) == t;
    TrimFixed(t);
  }

  // ---------- The request ----------

  /** Every spelling of the command asks for the same rank. */
  ghost predicate OneWish(raw: Request, c: bytes, p: Option<int>) {
    forall k :: k in raw && CanonicalName(k) == c ==> raw[k] == p
  }

  /** A saved request shows, for each command whose spellings agree, the rank asked for, or for null what the
      table says; that rank is one of the five. */
  lemma SavedRankShown(defaults: Ranks, overrides: Ranks, raw: Request, out: Ranks, k: bytes, r: Option<int>)
    requires MayAnswer(defaults, overrides, raw, Saved(out)) && k in raw
    requires OneWish(raw, CanonicalName(k), raw[k]) && IsMerged(out, CanonicalName(k), r)
    ensures var c := CanonicalName(k);
            && c !in ALIASES
            && (raw[k].Some? ==> raw[k].value in {0, 1, 2, 3, 4})
            && Effective(defaults, c, r) ==
               (if raw[k].Some? then raw[k].value else if c in defaults then defaults[c] else 2)
  {
    hide ALIASES, NamesAllowed, CanonicalName, IsMerged, IntrinsicDefault, Effective;
    var c := CanonicalName(k);
    var norm :| IsNormRequest(raw, norm) && AnswersNorm(defaults, overrides, norm, Saved(out));
    assert c in norm && norm[c] == raw[k];
    NormIsCanonical(raw, norm);
    PutShown(defaults, overrides, norm, out, c, r);
    RankOfCommand(defaults, k);
  }

  lemma RankOfCommand(defaults: Ranks, k: bytes)
    requires CanonicalName(k) !in ALIASES
    ensures var c := CanonicalName(k); IntrinsicDefault(defaults, c) == if c in defaults then defaults[c] else 2
  {
    hide ALIASES;
    CanonicalIsFolded(k);
  }

  predicate Plain(t: bytes) {
    forall i :: 0 <= i < |t| ==> 'a' <= t[i] <= 'z'
  }

  lemma PlainIsFolded(t: bytes)
    requires Plain(t)
    ensures Folded(t) == t
  {
    hide Trim;
    TrimFixed(t);
    assert ToLower(t) == t;
  }

  lemma AliasTargets(a: bytes)
    requires a in ALIASES
    ensures ALIASES[a] in {"rev", "re", "pin", "setcolor", "er", "unban", "maxserverocc", "defaultroomocc", "wizpass", "purgelimit", "rankset"}
  {
  }

  lemma TargetsArePlain(t: bytes)
    requires t in {"rev", "re", "pin", "setcolor", "er", "unban", "maxserverocc", "defaultroomocc", "wizpass", "purgelimit", "rankset"}
    ensures Plain(t)
  {
  }

  lemma CanonicalIsFolded(k: bytes)
    ensures Folded(CanonicalName(k)) == CanonicalName(k)
  {
    hide ALIASES, Trim, ToLower, Plain;
    var name := Folded(k);
    if name in ALIASES {
      AliasTargets(name);
      TargetsArePlain(ALIASES[name]);
      PlainIsFolded(ALIASES[name]);
    } else {
      LowerTrimmed(Trim(k));
      TrimFixed(name);
      LowerTwice(Trim(k));
    }
  }

  /** A PUT is refused for its names exactly when one of them is not allowed. */
  lemma BadNameIff(defaults: Ranks, overrides: Ranks, raw: Request, r: PutResult)
    requires MayAnswer(defaults, overrides, raw, r)
    ensures r == BadName <==> exists k :: k in raw && ToLower(Trim(k)) !in defaults && !IsPlainName(ToLower(Trim(k)))
  {
    hide IsAllowedKey, IsPlainName, Trim, ToLower, Folded, IsNormRequest, IsPut, RanksAllowed, ALIASES;
    forall k ensures IsAllowedKey(defaults, Folded(k)) <==> ToLower(Trim(k)) in defaults || IsPlainName(ToLower(Trim(k))) {
      var left, right := TrimParts(k);
      NameAllowedIff(defaults, left, Trim(k), right);
    }
  }
}
