/** Which lines of a preferences file the parser hands back unread: comments and lines with a foreign first word,
    but not the heading that every rendered file begins with. */
module PrefsKept {
  import opened Wrappers
  import opened Bytes
  import opened PrefsDirectives
  import opened PrefsParser
  import opened PrefsRoundTrip
  import opened PrefsReadings

  // ---------- Lines ----------

  /** Blank, or one of the two comments of the heading. */
  predicate IsHeading(line: bytes) {
    AllSpace(line) || Trim(line) == "; Server Prefs" || Trim(line) == ";"
  }

  predicate IsComment(line: bytes) {
    Trim(line) != "" && Trim(line)[0] == ';'
  }

  predicate IsFirstWord(t: bytes, w: bytes, rest: bytes) {
    && t == w + rest && w != "" && ' ' !in w && '\t' !in w
    && (rest == "" || rest[0] == ' ' || rest[0] == '\t')
  }

  /** No directive, in either spelling. */
  ghost predicate IsForeignWord(w: bytes) {
    && (forall d :: d != Unrecognized ==> ToUpper(w) != Word(d))
    && ToUpper(w) != "OPERATORPASSWORD" && ToUpper(w) != "OWNERPASSWORD"
  }

  ghost predicate IsForeign(line: bytes) {
    !IsComment(line) && exists w, rest :: IsFirstWord(Trim(line), w, rest) && IsForeignWord(w)
  }

  /** The line comes before anything but blank lines and heading comments, or is one of them. */
  predicate InHeading(ls: seq<bytes>, i: nat)
    requires i < |ls|
  {
    forall j :: 0 <= j <= i ==> IsHeading(ls[j])
  }

  ghost predicate IsKept(ls: seq<bytes>, i: nat)
    requires i < |ls|
  {
    !InHeading(ls, i) && (IsComment(ls[i]) || IsForeign(ls[i]))
  }

  // ---------- Words ----------

  lemma ForeignIff(u: bytes)
    ensures Recognize(u) == Unrecognized <==>
            && (forall d :: d != Unrecognized ==> u != Word(d)) && u != "OPERATORPASSWORD" && u != "OWNERPASSWORD"
  {
    hide Recognize, Word;
    RecognizedIsWord(u);
    SecondSpellings(u);
    forall d | d != Unrecognized ensures Recognize(Word(d)) == d {
      WordIsItself(d);
    }
  }

  lemma {:induction false} BlankAfter(w: bytes, rest: bytes)
    requires ' ' !in w && '\t' !in w && (rest == "" || rest[0] == ' ' || rest[0] == '\t')
    ensures IndexBlank(w + rest) == |w|
  {
    var t := w + rest;
    if w == "" {
      assert t == rest;
    } else {
      assert w == [w[0]] + w[1..] && t[1..] == w[1..] + rest && t[0] == w[0] && w[0] in w;
      BlankAfter(w[1..], rest);
    }
  }

  lemma UpperTwice(s: bytes)
    ensures ToUpper(ToUpper(s)) == ToUpper(s)
  {
  }

  /** The first token is the first word, for any first word. */
  lemma TokenIsWord(t: bytes, w: bytes, rest: bytes)
    requires Trim(t) == t && IsFirstWord(t, w, rest)
    ensures SplitFirstToken(t).token != "" && ToUpper(SplitFirstToken(t).token) == ToUpper(w)
  {
    hide Trim, ToUpper, IndexBlank;
    BlankAfter(w, rest);
    UpperTwice(w);
    assert t[..|w|] == w;
    assert |ToUpper(w)| == |w| by {
      UpperLength(w);
    }
  }

  lemma UpperLength(s: bytes)
    ensures |ToUpper(s)| == |s|
  {
  }

  lemma SomeFirstWord(t: bytes) returns (w: bytes, rest: bytes)
    requires t != "" && Trimmed(t)
    ensures IsFirstWord(t, w, rest)
  {
    var i := IndexBlank(t);
    w, rest := t[..i], t[i..];
  }

  /** A line that is neither blank nor a comment is foreign exactly when its word is not recognized. */
  lemma ForeignLine(line: bytes)
    requires Trim(line) != "" && !IsComment(line)
    ensures var s := SplitFirstToken(Trim(line));
            s.token != "" && (IsForeign(line) <==> Recognize(ToUpper(s.token)) == Unrecognized)
  {
    hide Trim, ToUpper, IndexBlank, SplitFirstToken, IsFirstWord, Recognize, Word;
    var t := Trim(line);
    TrimTwice(line);
    var w, rest := SomeFirstWord(t);
    TokenIsWord(t, w, rest);
    ForeignIff(ToUpper(w));
    forall v, r | IsFirstWord(t, v, r) ensures ToUpper(v) == ToUpper(w) {
      TokenIsWord(t, v, r);
    }
  }

  // ---------- The scan ----------

  /** One line: what it adds to the lines handed back, and whether the heading is over. */
  lemma ScanLineKeeps(a: Scan, raw: bytes, ln: nat)
    ensures var b := ScanLine(a, raw, ln);
            && b.unknown == a.unknown + (if (a.bannerDone || !IsHeading(raw)) && (IsComment(raw) || IsForeign(raw)) then [raw] else [])
            && b.bannerDone == (a.bannerDone || !IsHeading(raw))
  {
    hide Trim, SplitFirstToken, Recognize, ToUpper, IsForeign, AllSpace, Apply, CString;
    BlankTrim(raw);
    assert a.unknown + [] == a.unknown;
    BlankIsNothing(raw);
    if Trim(raw) != "" && !IsComment(raw) {
      ForeignLine(raw);
    }
  }

  lemma BlankIsNothing(raw: bytes)
    ensures IsComment(raw) ==> !IsForeign(raw)
    ensures Trim(raw) == "" ==> !IsComment(raw) && !IsForeign(raw)
    ensures IsComment(raw) <==> Trim(raw) != "" && HasPrefix(Trim(raw), ";")
  {
    hide Trim, Word;
  }

  lemma {:induction false} ScanSnoc(a: Scan, ls: seq<bytes>, ln: nat, raw: bytes)
    ensures ScanLines(a, ls + [raw], ln) == ScanLine(ScanLines(a, ls, ln), raw, ln + |ls|)
    decreases |ls|
  {
    hide ScanLine;
    var all := ls + [raw];
    if ls == [] {
      assert all == [raw] && all[1..] == [];
    } else {
      assert all[0] == ls[0] && all[1..] == ls[1..] + [raw];
      ScanSnoc(ScanLine(a, ls[0], ln), ls[1..], ln + 1, raw);
    }
  }

  predicate Ascending(idx: seq<nat>) {
    forall i, j :: 0 <= i < j < |idx| ==> idx[i] < idx[j]
  }

  /** The places of the kept lines among the first n, in order. */
  ghost predicate ArePlaces(ls: seq<bytes>, n: nat, idx: seq<nat>)
    requires n <= |ls|
  {
    Ascending(idx) && (forall i: nat :: i in idx <==> i < n && IsKept(ls, i))
  }

  function LinesAt(ls: seq<bytes>, idx: seq<nat>): seq<bytes>
    requires forall i :: 0 <= i < |idx| ==> idx[i] < |ls|
  {
    seq(|idx|, i requires 0 <= i < |idx| => ls[idx[i]])
  }

  lemma NextPlace(ls: seq<bytes>, n: nat, idx: seq<nat>)
    requires n < |ls| && ArePlaces(ls, n, idx)
    ensures ArePlaces(ls, n + 1, if IsKept(ls, n) then idx + [n] else idx)
  {
    hide IsKept;
    if IsKept(ls, n) {
      var more := idx + [n];
      assert forall i :: 0 <= i < |idx| ==> idx[i] in idx && more[i] == idx[i];
      forall i: nat ensures i in more <==> i < n + 1 && IsKept(ls, i) {
        assert i in more <==> i in idx || i == n;
      }
    }
  }

  lemma PlacesFit(ls: seq<bytes>, n: nat, idx: seq<nat>)
    requires n <= |ls| && ArePlaces(ls, n, idx)
    ensures forall i :: 0 <= i < |idx| ==> idx[i] < n
  {
    forall i | 0 <= i < |idx| ensures idx[i] < n {
      assert idx[i] in idx;
    }
  }

  lemma {:induction false} ScanKeeps(ls: seq<bytes>, n: nat) returns (idx: seq<nat>)
    requires n <= |ls|
    ensures ArePlaces(ls, n, idx) && forall i :: 0 <= i < |idx| ==> idx[i] < n
    ensures var a := ScanLines(START, ls[..n], 0);
            a.unknown == LinesAt(ls, idx) && (a.bannerDone <==> exists j :: 0 <= j < n && !IsHeading(ls[j]))
  {
    hide ScanLine, ArePlaces, IsHeading, IsComment, IsForeign;
    if n == 0 {
      idx := [];
      NothingKept(ls);
    } else {
      hide ScanLines;
      idx := ScanKeeps(ls, n - 1);
      ScanSnoc(START, ls[..n - 1], 0, ls[n - 1]);
      assert ls[..n - 1] + [ls[n - 1]] == ls[..n];
      var a := ScanLines(START, ls[..n - 1], 0);
      ScanLineKeeps(a, ls[n - 1], n - 1);
      NextPlace(ls, n - 1, idx);
      assert IsKept(ls, n - 1) <==> (a.bannerDone || !IsHeading(ls[n - 1])) && (IsComment(ls[n - 1]) || IsForeign(ls[n - 1]));
      if IsKept(ls, n - 1) {
        assert LinesAt(ls, idx + [n - 1]) == LinesAt(ls, idx) + [ls[n - 1]];
        idx := idx + [n - 1];
      } else {
        assert a.unknown + [] == a.unknown;
      }
      PlacesFit(ls, n, idx);
    }
  }

  lemma NothingKept(ls: seq<bytes>)
    ensures ArePlaces(ls, 0, []) && ScanLines(START, ls[..0], 0) == START && LinesAt(ls, []) == []
  {
    hide IsKept;
  }

  /** The lines handed back are exactly the comments and foreign lines after the heading, in order. */
  lemma PreservedExactly(content: bytes) returns (idx: seq<nat>)
    ensures var ls := Lines(DropCr(content));
            && ArePlaces(ls, |ls|, idx) && (forall i :: 0 <= i < |idx| ==> idx[i] < |ls|)
            && ParseText(content).unknownTail == JoinLines(LinesAt(ls, idx))
  {
    hide ScanLines, Lines, DropCr, ArePlaces, JoinLines;
    var ls := Lines(DropCr(content));
    idx := ScanKeeps(ls, |ls|);
    assert ls[..|ls|] == ls;
  }
}
