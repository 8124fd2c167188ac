/** The first-reference parser reads what was meant: on any layout of a written file it returns the
    first reference of every lookup key. */
module PatReading {
  import opened Bytes
  import opened Numbers
  import opened PatScanner
  import opened PatWords
  import opened PatRefs
  import opened PatLayout
  import opened PatMeaning

  /** A word reads the same in upper and in lower case. */
  lemma CaselessToken(a: Atom, text: bytes)
    requires AtomOk(a) && Writes(a, Caseless(text)) && Trimmed(text)
    ensures WordOf(TokenOf(a)) == WordOf(text)
    ensures EqualFold(TokenOf(a), text)
  {
    hide Lookup, Trim;
    WordByteTrimmed(a.text);
    TrimFixed(a.text);
    TrimFixed(text);
    FoldsAlike(a.text, text);
  }

  lemma WordByteTrimmed(s: bytes)
    requires forall i :: 0 <= i < |s| ==> IsWordByte(s[i])
    ensures Trimmed(s)
  {
  }

  lemma FoldsAlike(a: bytes, b: bytes)
    requires ToUpper(a) == ToUpper(b)
    ensures ToLower(a) == ToLower(b)
  {
    assert |a| == |b|;
    forall i | 0 <= i < |a| ensures Lower(a[i]) == Lower(b[i]) {
      assert ToUpper(a)[i] == Upper(a[i]) && ToUpper(b)[i] == Upper(b[i]);
    }
  }

  lemma WordRead(a: Atom, w: Word)
    requires AtomOk(a) && w != Other && Writes(a, WordPart(w))
    ensures WordOf(TokenOf(a)) == w
  {
    hide Spelling, WordOf, TokenOf;
    ReadsItself(w);
    SpellingTrimmed(w);
    CaselessToken(a, Spelling(w));
  }

  lemma SpellingTrimmed(w: Word)
    ensures Trimmed(Spelling(w))
  {
    hide Spelling;
  }

  lemma WordToken(ps: seq<Placed>, w: Word)
    requires ps != [] && LayoutOk(ps) && w != Other && Writes(ps[0].atom, WordPart(w))
    ensures WordOf(TokenOf(ps[0].atom)) == w
  {
    hide Spelling, WordOf, TokenOf;
    WordRead(ps[0].atom, w);
  }

  /** Only what the next token is matters; the token before it does not. */
  lemma TokenForgotten(ps: seq<Placed>, tail: bytes, t1: bytes, t2: bytes)
    requires LayoutOk(ps) && ps != [] && IsTail(tail)
    ensures GetToken(At(ps, tail, t1)) == GetToken(At(ps, tail, t2))
  {
    hide GetToken, At;
    TakeAtom(ps, tail, t1);
    TakeAtom(ps, tail, t2);
  }

  /** Atoms counted from a later one. */
  lemma Onward(ps: seq<Placed>, n: nat, m: nat)
    requires n + m <= |ps|
    ensures ps[n..][m..] == ps[n + m..]
    ensures m > 0 ==> ps[n..][m - 1] == ps[n + m - 1]
  {
  }

  // ---------- Pictures ----------

  lemma PictureSame(s1: Src, s2: Src, v: PictureVars)
    requires Ok(s1) && Ok(s2) && GetToken(s1) == GetToken(s2)
    ensures PictureLoop(s1, v) == PictureLoop(s2, v)
  {
    hide GetToken, WordOf, PictureStep;
  }

  lemma PictureTurn(ps: seq<Placed>, tail: bytes, token: bytes, v: PictureVars, w: Word)
    requires LayoutOk(ps) && ps != [] && IsTail(tail)
    requires WordOf(TokenOf(ps[0].atom)) == w && w != EndPicture
    ensures var r := PictureStep(w, At(ps[1..], tail, TokenOf(ps[0].atom)), v);
            PictureLoop(At(ps, tail, token), v) == PictureLoop(r.s, r.v)
  {
    hide GetToken, WordOf, PictureStep, At, TokenOf;
    TakeAtom(ps, tail, token);
  }

  lemma PictureStepRead(ps: seq<Placed>, tail: bytes, token: bytes, v: PictureVars, item: PictureItem)
    requires Spells(ps, PictureItemParts(item)[1..]) && IsTail(tail) && !item.PictureFlag?
    ensures var w := if item.PictureId? then Id else if item.PictureName? then Name else TransColor;
            var r := PictureStep(w, At(ps, tail, token), v);
            r.v == PictureSaid(item, v) && exists t :: r.s == At(ps[1..], tail, t)
  {
    hide ReadInt, ReadString, At, Spelling, ToInt16, Cut, Apart, AtomOk, GapsOk, IsTail;
    assert Writes(ps[0].atom, PictureItemParts(item)[1..][0]);
    if item.PictureName? {
      TakeString(ps, tail, token, item.name);
    } else {
      TakeNumber(ps, tail, token, item.n);
    }
  }

  lemma PictureItemRead(ps: seq<Placed>, tail: bytes, token: bytes, v: PictureVars, item: PictureItem)
    requires Spells(ps, PictureItemParts(item)) && PictureItemOk(item) && IsTail(tail)
    requires |PictureItemParts(item)| < |ps|
    ensures PictureLoop(At(ps, tail, token), v) ==
            PictureLoop(At(ps[|PictureItemParts(item)|..], tail, ""), PictureSaid(item, v))
  {
    hide GetToken, WordOf, PictureStep, PictureLoop, At, Spelling, PictureSaid, LayoutOk, IsTail, TokenOf, Writes;
    var parts := PictureItemParts(item);
    assert Writes(ps[0].atom, parts[0]);
    var t := TokenOf(ps[0].atom);
    LayoutFrom(ps, 1);
    if item.PictureFlag? {
      FirstAtomOk(ps);
      FlagToken(ps[0].atom, item.text);
      PictureTurn(ps, tail, token, v, Other);
      OtherPictureStep(At(ps[1..], tail, t), v, item);
      TokenForgotten(ps[1..], tail, t, "");
      PictureSame(At(ps[1..], tail, t), At(ps[1..], tail, ""), v);
    } else {
      var w := if item.PictureId? then Id else if item.PictureName? then Name else TransColor;
      WordToken(ps, w);
      PictureTurn(ps, tail, token, v, w);
      assert parts == [parts[0]] + parts[1..];
      SpellsBoth(ps, [parts[0]], parts[1..]);
      PictureStepRead(ps[1..], tail, t, v, item);
      var r := PictureStep(w, At(ps[1..], tail, t), v);
      assert ps[1..][1..] == ps[2..];
      LayoutFrom(ps, 2);
      var t2 :| r.s == At(ps[2..], tail, t2);
      TokenForgotten(ps[2..], tail, t2, "");
      PictureSame(r.s, At(ps[2..], tail, ""), r.v);
    }
  }

  lemma FirstAtomOk(ps: seq<Placed>)
    requires LayoutOk(ps) && ps != []
    ensures AtomOk(ps[0].atom)
  {
  }

  lemma LayoutFrom(ps: seq<Placed>, n: nat)
    requires LayoutOk(ps) && n <= |ps|
    ensures LayoutOk(ps[n..])
  {
    hide PlacedOk, Apart;
  }

  lemma FlagToken(a: Atom, text: bytes)
    requires AtomOk(a) && FlagOk(text) && Writes(a, Caseless(text))
    ensures WordOf(TokenOf(a)) == Other
  {
    hide WordOf, TokenOf;
    WordByteTrimmed(text);
    CaselessToken(a, text);
  }

  lemma OtherPictureStep(s: Src, v: PictureVars, item: PictureItem)
    requires Ok(s) && item.PictureFlag?
    ensures PictureStep(Other, s, v) == PictureAt(v, s) && PictureSaid(item, v) == v
  {
  }

  /** A written PICTURE block is read to its end and means what its items say. */
  lemma {:induction false} PictureRead(ps: seq<Placed>, tail: bytes, token: bytes, v: PictureVars, picture: seq<PictureItem>)
    requires Spells(ps, PictureParts(picture)) && PictureOk(picture) && IsTail(tail)
    ensures PictureLoop(At(ps, tail, token), v) ==
            PictureEnd(true, PictureSays(picture, v), At(ps[|PictureParts(picture)|..], tail, TokenOf(ps[|PictureParts(picture)| - 1].atom)))
    decreases |picture|
  {
    hide GetToken, WordOf, PictureStep, At, Spelling, PictureSaid, PictureItemParts, PictureItemOk, PictureLoop;
    hide LayoutOk, IsTail, TokenOf, Writes;
    if picture == [] {
      assert Writes(ps[0].atom, PictureParts(picture)[0]);
      WordToken(ps, EndPicture);
      PictureClosed(ps, tail, token, v);
    } else {
      var n := |PictureItemParts(picture[0])|;
      SpellsBoth(ps, PictureItemParts(picture[0]), PictureParts(picture[1..]));
      PictureItemRead(ps, tail, token, v, picture[0]);
      PictureRead(ps[n..], tail, "", PictureSaid(picture[0], v), picture[1..]);
      Onward(ps, n, |PictureParts(picture[1..])|);
    }
  }

  lemma PictureClosed(ps: seq<Placed>, tail: bytes, token: bytes, v: PictureVars)
    requires LayoutOk(ps) && ps != [] && IsTail(tail) && WordOf(TokenOf(ps[0].atom)) == EndPicture
    ensures PictureLoop(At(ps, tail, token), v) == PictureEnd(true, v, At(ps[1..], tail, TokenOf(ps[0].atom)))
  {
    hide GetToken, WordOf, PictureStep, At, TokenOf;
    TakeAtom(ps, tail, token);
  }

  // ---------- Outlines, scripts and props ----------

  lemma OutlineTurn(ps: seq<Placed>, tail: bytes, token: bytes)
    requires LayoutOk(ps) && ps != [] && IsTail(tail) && (ps[0].atom.Number? || ps[0].atom.Comma?)
    ensures SkipOutline(At(ps, tail, token)) == SkipOutline(At(ps[1..], tail, TokenOf(ps[0].atom)))
  {
    hide GetToken, At, TokenOf, IsCoordinate;
    TakeAtom(ps, tail, token);
    CoordinateToken(ps[0].atom);
  }

  lemma CoordinateToken(a: Atom)
    requires a.Number? || a.Comma?
    ensures IsCoordinate(TokenOf(a)) || TokenOf(a) == ","
  {
    hide Digits;
  }

  lemma OutlineEnds(ps: seq<Placed>, tail: bytes, token: bytes)
    requires LayoutOk(ps) && ps != [] && IsTail(tail) && ps[0].atom.Bare?
    ensures GetToken(SkipOutline(At(ps, tail, token))) == GetToken(At(ps, tail, ""))
  {
    hide GetToken, At;
    TakeAtom(ps, tail, token);
    PushedBack(ps, tail, "");
    NotComma(ps[0].atom);
    BareIsNoCoordinate(ps[0].atom);
  }

  lemma BareIsNoCoordinate(a: Atom)
    requires AtomOk(a) && a.Bare?
    ensures !IsCoordinate(a.text) && a.text != ""
  {
  }

  lemma PointSkipped(ps: seq<Placed>, tail: bytes, token: bytes, p: Point)
    requires Spells(ps, PointParts(p)) && IsTail(tail)
    ensures SkipOutline(At(ps, tail, token)) ==
            SkipOutline(At(ps[|PointParts(p)|..], tail, TokenOf(ps[|PointParts(p)| - 1].atom)))
  {
    hide GetToken, At, SkipOutline, TokenOf, Apart, AtomOk, GapsOk, IsTail;
    assert Writes(ps[0].atom, PointParts(p)[0]);
    OutlineTurn(ps, tail, token);
    if p.Two? {
      assert Writes(ps[1].atom, PointParts(p)[1]) && Writes(ps[2].atom, PointParts(p)[2]);
      OutlineTurn(ps[1..], tail, TokenOf(ps[0].atom));
      assert ps[1..][1..] == ps[2..];
      OutlineTurn(ps[2..], tail, TokenOf(ps[1].atom));
      assert ps[2..][1..] == ps[3..];
    }
  }

  /** skipOutline skips the points and leaves the word after them to be read next. */
  lemma {:induction false} OutlineRead(ps: seq<Placed>, tail: bytes, token: bytes, points: seq<Point>)
    requires Spells(ps, OutlineParts(points)) && IsTail(tail)
    requires |OutlineParts(points)| < |ps| && ps[|OutlineParts(points)|].atom.Bare?
    ensures GetToken(SkipOutline(At(ps, tail, token))) == GetToken(At(ps[|OutlineParts(points)|..], tail, ""))
    decreases |points|
  {
    hide GetToken, At, SkipOutline, TokenOf, LayoutOk, IsTail, Writes;
    if points == [] {
      assert ps[0..] == ps;
      OutlineEnds(ps, tail, token);
    } else {
      var n := |PointParts(points[0])|;
      SpellsBoth(ps, PointParts(points[0]), OutlineParts(points[1..]));
      PointSkipped(ps, tail, token, points[0]);
      Onward(ps, n, |OutlineParts(points[1..])|);
      OutlineRead(ps[n..], tail, TokenOf(ps[n - 1].atom), points[1..]);
    }
  }

  /** The first atom of a body that is skipped up to its closing word. */
  lemma BodyFirst(ps: seq<Placed>, body: seq<Atom>, close: Part)
    requires Spells(ps, Exactly(body) + [close])
    ensures ps != [] && LayoutOk(ps) && AtomOk(ps[0].atom) && |body| < |ps|
    ensures body == [] ==> Writes(ps[0].atom, close)
    ensures body != [] ==> ps[0].atom == body[0] && Spells(ps[1..], Exactly(body[1..]) + [close])
    ensures body != [] ==> ps[1..][|body| - 1] == ps[|body|]
  {
    hide Apart, AtomOk, GapsOk;
    var all := Exactly(body) + [close];
    assert Writes(ps[0].atom, all[0]);
    assert PlacedOk(ps[0]);
    if body != [] {
      assert all == [all[0]] + all[1..] && all[1..] == Exactly(body[1..]) + [close];
      SpellsBoth(ps, [all[0]], all[1..]);
    }
  }

  lemma {:induction false} ScriptRead(ps: seq<Placed>, tail: bytes, token: bytes, body: seq<Atom>)
    requires Spells(ps, Exactly(body) + [Caseless("ENDSCRIPT")]) && IsTail(tail)
    requires forall i :: 0 <= i < |body| ==> ScriptAtomOk(body[i])
    ensures SkipScript(At(ps, tail, token)) == At(ps[|body| + 1..], tail, TokenOf(ps[|body|].atom))
    decreases |body|
  {
    hide GetToken, At, EqualFold, WordOf, Spelling, TokenOf, Spells, LayoutOk, IsTail, Writes;
    BodyFirst(ps, body, Caseless("ENDSCRIPT"));
    TakeAtom(ps, tail, token);
    if body == [] {
      CaselessToken(ps[0].atom, "ENDSCRIPT");
    } else {
      ScriptRead(ps[1..], tail, TokenOf(ps[0].atom), body[1..]);
      Onward(ps, 1, |body|);
    }
  }

  lemma {:induction false} PropRead(ps: seq<Placed>, tail: bytes, token: bytes, body: seq<Atom>)
    requires Spells(ps, Exactly(body) + [WordPart(EndProp)]) && IsTail(tail)
    requires forall i :: 0 <= i < |body| ==> PropAtomOk(body[i])
    ensures SkipProp(At(ps, tail, token)) == At(ps[|body| + 1..], tail, TokenOf(ps[|body|].atom))
    decreases |body|
  {
    hide GetToken, At, EqualFold, WordOf, Spelling, TokenOf, Spells, LayoutOk, IsTail, Writes;
    BodyFirst(ps, body, WordPart(EndProp));
    TakeAtom(ps, tail, token);
    if body == [] {
      WordToken(ps, EndProp);
    } else {
      PropRead(ps[1..], tail, TokenOf(ps[0].atom), body[1..]);
      Onward(ps, 1, |body|);
    }
  }
}
