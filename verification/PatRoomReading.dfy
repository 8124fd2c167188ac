/** Hotspots, rooms and whole files: the first-reference parser returns what the file means. */
module PatRoomReading {
  import opened Bytes
  import opened Numbers
  import opened PatScanner
  import opened PatWords
  import opened PatRefs
  import opened PatLayout
  import opened PatMeaning
  import opened PatReading
  import opened PatPicts

  // ---------- Hotspots ----------

  /** The word an item of a hotspot starts with. */
  function SpotWord(item: SpotItem): Word {
    match item
    case SpotId(_) => Id
    case SpotName(_) => Name
    case SpotPict(word, _) => word
    case SpotPicts(open, _, _) => open
    case SpotTarget(word, _) => word
    case SpotLoc(_) => Loc
    case SpotOutline(_) => Outline
    case SpotScript(_) => Script
    case SpotFlag(_) => Other
  }

  function SpotRest(item: SpotItem): seq<Part> {
    match item
    case SpotId(n) => [Integer(n)]
    case SpotName(name) => [Label(name)]
    case SpotPict(_, n) => [Integer(n)]
    case SpotPicts(_, entries, close) => PictsParts(entries, close)
    case SpotTarget(_, n) => [Integer(n)]
    case SpotLoc(at) => PointParts(at)
    case SpotOutline(points) => OutlineParts(points)
    case SpotScript(body) => Exactly(body) + [Caseless("ENDSCRIPT")]
    case SpotFlag(_) => []
  }

  lemma SpotItemSplit(item: SpotItem)
    requires SpotItemOk(item)
    ensures SpotItemParts(item) == [SpotItemParts(item)[0]] + SpotRest(item) && !ClosesSpot(SpotWord(item))
    ensures SpotItemParts(item)[0].Caseless?
  {
    hide Spelling, WordOf, PictsParts, PointParts, OutlineParts;
  }

  lemma SpotItemWord(a: Atom, item: SpotItem)
    requires SpotItemOk(item) && AtomOk(a) && Writes(a, SpotItemParts(item)[0])
    ensures WordOf(TokenOf(a)) == SpotWord(item)
  {
    hide Spelling, WordOf, PictsParts, PointParts, OutlineParts, TokenOf;
    if item.SpotFlag? {
      FlagToken(a, item.text);
    } else {
      WordRead(a, SpotWord(item));
    }
  }

  lemma SpotSame(s1: Src, s2: Src, v: SpotVars)
    requires Ok(s1) && Ok(s2) && GetToken(s1) == GetToken(s2)
    ensures SpotLoop(s1, v) == SpotLoop(s2, v)
  {
    hide GetToken, WordOf, SpotStep;
  }

  lemma SpotTurn(ps: seq<Placed>, tail: bytes, token: bytes, v: SpotVars, w: Word)
    requires LayoutOk(ps) && ps != [] && IsTail(tail)
    requires WordOf(TokenOf(ps[0].atom)) == w && !ClosesSpot(w)
    ensures var r := SpotStep(w, At(ps[1..], tail, TokenOf(ps[0].atom)), v);
            SpotLoop(At(ps, tail, token), v) == SpotLoop(r.s, r.v)
  {
    hide GetToken, WordOf, SpotStep, At, TokenOf;
    TakeAtom(ps, tail, token);
  }

  lemma SpotClosed(ps: seq<Placed>, tail: bytes, token: bytes, v: SpotVars)
    requires LayoutOk(ps) && ps != [] && IsTail(tail) && ClosesSpot(WordOf(TokenOf(ps[0].atom)))
    ensures SpotLoop(At(ps, tail, token), v) == SpotEnd(true, v, At(ps[1..], tail, TokenOf(ps[0].atom)))
  {
    hide GetToken, WordOf, SpotStep, At, TokenOf;
    TakeAtom(ps, tail, token);
  }

  lemma SpotNumberRead(ps: seq<Placed>, tail: bytes, token: bytes, v: SpotVars, item: SpotItem)
    requires Spells(ps, SpotRest(item)) && SpotItemOk(item) && IsTail(tail)
    requires |SpotRest(item)| < |ps| && ps[|SpotRest(item)|].atom.Bare?
    requires item.SpotId? || item.SpotPict? || item.SpotTarget?
    ensures var r := SpotStep(SpotWord(item), At(ps, tail, token), v);
            r.v == SpotSaid(item, v) && GetToken(r.s) == GetToken(At(ps[|SpotRest(item)|..], tail, ""))
  {
    hide ReadInt, ReadString, ReadPoint, At, Spelling, ToInt16, Cut, PictsLoop, SkipOutline, SkipScript, PictsParts;
    hide PointParts, OutlineParts, GetToken, IsTail, EntryIds, InStep, ScriptAtomOk, AtomOk, Fuel, Ok, LayoutOk, TokenOf;
    LayoutFrom(ps, 1);
    var rest := SpotRest(item);
    assert Writes(ps[0].atom, rest[0]);
    TakeNumber(ps, tail, token, item.n);
    TokenForgotten(ps[1..], tail, TokenOf(ps[0].atom), "");
  }

  lemma SpotTextRead(ps: seq<Placed>, tail: bytes, token: bytes, v: SpotVars, item: SpotItem)
    requires Spells(ps, SpotRest(item)) && SpotItemOk(item) && IsTail(tail)
    requires |SpotRest(item)| < |ps| && ps[|SpotRest(item)|].atom.Bare?
    requires item.SpotName? || item.SpotFlag?
    ensures var r := SpotStep(SpotWord(item), At(ps, tail, token), v);
            r.v == SpotSaid(item, v) && GetToken(r.s) == GetToken(At(ps[|SpotRest(item)|..], tail, ""))
  {
    hide ReadInt, ReadString, ReadPoint, At, Spelling, ToInt16, Cut, PictsLoop, SkipOutline, SkipScript, PictsParts;
    hide PointParts, OutlineParts, GetToken, IsTail, EntryIds, InStep, ScriptAtomOk, AtomOk, Fuel, Ok, LayoutOk, TokenOf;
    var rest := SpotRest(item);
    if item.SpotName? {
      assert Writes(ps[0].atom, rest[0]);
      TakeString(ps, tail, token, item.name);
      LayoutFrom(ps, 1);
      TokenForgotten(ps[1..], tail, token, "");
    } else {
      assert ps[0..] == ps;
      TokenForgotten(ps, tail, token, "");
    }
  }

  lemma SpotPictsRead(ps: seq<Placed>, tail: bytes, token: bytes, v: SpotVars, item: SpotItem)
    requires Spells(ps, SpotRest(item)) && SpotItemOk(item) && IsTail(tail)
    requires |SpotRest(item)| < |ps| && ps[|SpotRest(item)|].atom.Bare?
    requires item.SpotPicts?
    ensures var r := SpotStep(SpotWord(item), At(ps, tail, token), v);
            r.v == SpotSaid(item, v) && GetToken(r.s) == GetToken(At(ps[|SpotRest(item)|..], tail, ""))
  {
    hide ReadInt, ReadString, ReadPoint, At, Spelling, ToInt16, Cut, PictsLoop, SkipOutline, SkipScript, PictsParts;
    hide PointParts, OutlineParts, GetToken, IsTail, EntryIds, InStep, ScriptAtomOk, AtomOk, Fuel, Ok;
    var rest := SpotRest(item);
    PictsReadIff(ps, tail, token, v.ids, item.entries, item.close);
    TokenForgotten(ps[|rest|..], tail, TokenOf(ps[|rest| - 1].atom), "");
  }

  lemma SpotLocRead(ps: seq<Placed>, tail: bytes, token: bytes, v: SpotVars, item: SpotItem)
    requires Spells(ps, SpotRest(item)) && SpotItemOk(item) && IsTail(tail)
    requires |SpotRest(item)| < |ps| && ps[|SpotRest(item)|].atom.Bare?
    requires item.SpotLoc?
    ensures var r := SpotStep(SpotWord(item), At(ps, tail, token), v);
            r.v == SpotSaid(item, v) && GetToken(r.s) == GetToken(At(ps[|SpotRest(item)|..], tail, ""))
  {
    hide ReadInt, ReadString, ReadPoint, At, Spelling, ToInt16, Cut, PictsLoop, SkipOutline, SkipScript, PictsParts;
    hide PointParts, OutlineParts, GetToken, IsTail, EntryIds, InStep, ScriptAtomOk, AtomOk, Fuel, Ok, LayoutOk, TokenOf;
    PointSize(item.at);
    TakePoint(ps, tail, token, item.at);
  }

  lemma SpotOutlineRead(ps: seq<Placed>, tail: bytes, token: bytes, v: SpotVars, item: SpotItem)
    requires Spells(ps, SpotRest(item)) && SpotItemOk(item) && IsTail(tail)
    requires |SpotRest(item)| < |ps| && ps[|SpotRest(item)|].atom.Bare?
    requires item.SpotOutline?
    ensures var r := SpotStep(SpotWord(item), At(ps, tail, token), v);
            r.v == SpotSaid(item, v) && GetToken(r.s) == GetToken(At(ps[|SpotRest(item)|..], tail, ""))
  {
    hide ReadInt, ReadString, ReadPoint, At, Spelling, ToInt16, Cut, PictsLoop, SkipOutline, SkipScript, PictsParts;
    hide PointParts, OutlineParts, GetToken, IsTail, EntryIds, InStep, ScriptAtomOk, AtomOk, Fuel, Ok, LayoutOk, TokenOf;
    OutlineRead(ps, tail, token, item.points);
  }

  lemma SpotScriptRead(ps: seq<Placed>, tail: bytes, token: bytes, v: SpotVars, item: SpotItem)
    requires Spells(ps, SpotRest(item)) && SpotItemOk(item) && IsTail(tail)
    requires |SpotRest(item)| < |ps| && ps[|SpotRest(item)|].atom.Bare?
    requires item.SpotScript?
    ensures var r := SpotStep(SpotWord(item), At(ps, tail, token), v);
            r.v == SpotSaid(item, v) && GetToken(r.s) == GetToken(At(ps[|SpotRest(item)|..], tail, ""))
  {
    hide ReadInt, ReadString, ReadPoint, At, Spelling, ToInt16, Cut, PictsLoop, SkipOutline, SkipScript, PictsParts;
    hide PointParts, OutlineParts, GetToken, IsTail, EntryIds, InStep, ScriptAtomOk, AtomOk, Fuel, Ok, LayoutOk, TokenOf;
    var n := |SpotRest(item)|;
    ScriptRead(ps, tail, token, item.body);
    LayoutFrom(ps, n);
    TokenForgotten(ps[n..], tail, TokenOf(ps[n - 1].atom), "");
  }

  /** One item's directive does what the item says and leaves the scanner in front of the next item. */
  lemma SpotStepRead(ps: seq<Placed>, tail: bytes, token: bytes, v: SpotVars, item: SpotItem)
    requires Spells(ps, SpotRest(item)) && SpotItemOk(item) && IsTail(tail)
    requires |SpotRest(item)| < |ps| && ps[|SpotRest(item)|].atom.Bare?
    ensures var r := SpotStep(SpotWord(item), At(ps, tail, token), v);
            r.v == SpotSaid(item, v) && GetToken(r.s) == GetToken(At(ps[|SpotRest(item)|..], tail, ""))
  {
    hide SpotStep, SpotWord, SpotRest, SpotSaid, SpotItemOk, At, GetToken, IsTail;
    match item
    case SpotName(_) => SpotTextRead(ps, tail, token, v, item);
    case SpotFlag(_) => SpotTextRead(ps, tail, token, v, item);
    case SpotPicts(_, _, _) => SpotPictsRead(ps, tail, token, v, item);
    case SpotLoc(_) => SpotLocRead(ps, tail, token, v, item);
    case SpotOutline(_) => SpotOutlineRead(ps, tail, token, v, item);
    case SpotScript(_) => SpotScriptRead(ps, tail, token, v, item);
    case _ => SpotNumberRead(ps, tail, token, v, item);
  }

  lemma SpotItemRead(ps: seq<Placed>, tail: bytes, token: bytes, v: SpotVars, item: SpotItem)
    requires Spells(ps, SpotItemParts(item)) && SpotItemOk(item) && IsTail(tail)
    requires |SpotItemParts(item)| < |ps| && ps[|SpotItemParts(item)|].atom.Bare?
    ensures SpotLoop(At(ps, tail, token), v) == SpotLoop(At(ps[|SpotItemParts(item)|..], tail, ""), SpotSaid(item, v))
  {
    hide GetToken, WordOf, SpotStep, SpotLoop, At, SpotSaid, SpotItemParts, SpotRest, SpotItemOk, SpotWord, TokenOf, IsTail;
    var n := |SpotItemParts(item)|;
    SpotItemSplit(item);
    var a := SpotItemParts(item)[0];
    SpellsBoth(ps, [a], SpotRest(item));
    assert Writes(ps[0].atom, [a][0]);
    SpotItemWord(ps[0].atom, item);
    SpotTurn(ps, tail, token, v, SpotWord(item));
    assert ps[1..][|SpotRest(item)|..] == ps[n..];
    SpotStepRead(ps[1..], tail, TokenOf(ps[0].atom), v, item);
    var r := SpotStep(SpotWord(item), At(ps[1..], tail, TokenOf(ps[0].atom)), v);
    SpotSame(r.s, At(ps[n..], tail, ""), r.v);
  }

  lemma SpotEnds(ps: seq<Placed>, tail: bytes, token: bytes, v: SpotVars, close: Word)
    requires Spells(ps, SpotParts([], close)) && ClosesSpot(close) && IsTail(tail)
    ensures |SpotParts([], close)| == 1
    ensures SpotLoop(At(ps, tail, token), v) == SpotEnd(true, v, At(ps[1..], tail, TokenOf(ps[0].atom)))
  {
    hide WordOf, At, Spelling, SpotLoop, IsTail, LayoutOk, TokenOf, Writes;
    assert Writes(ps[0].atom, SpotParts([], close)[0]);
    WordToken(ps, close);
    SpotClosed(ps, tail, token, v);
  }

  /** A written hotspot is read to its closing word and means what its items say. */
  lemma {:induction false} SpotRead(ps: seq<Placed>, tail: bytes, token: bytes, v: SpotVars,
                                    spot: seq<SpotItem>, close: Word)
    requires Spells(ps, SpotParts(spot, close)) && SpotOk(spot) && ClosesSpot(close) && IsTail(tail)
    ensures SpotLoop(At(ps, tail, token), v) ==
            SpotEnd(true, SpotSays(spot, v), At(ps[|SpotParts(spot, close)|..], tail, TokenOf(ps[|SpotParts(spot, close)| - 1].atom)))
    decreases |spot|
  {
    hide GetToken, WordOf, SpotStep, At, Spelling, SpotSaid, SpotItemParts, SpotItemOk, SpotLoop, IsTail, LayoutOk;
    hide TokenOf, WordPart, Writes;
    if spot == [] {
      SpotEnds(ps, tail, token, v, close);
    } else {
      var n := |SpotItemParts(spot[0])|;
      SpellsBoth(ps, SpotItemParts(spot[0]), SpotParts(spot[1..], close));
      SpotStarts(spot[1..], close);
      FirstIsBare(ps[n..], SpotParts(spot[1..], close));
      SpotItemRead(ps, tail, token, v, spot[0]);
      SpotRead(ps[n..], tail, "", SpotSaid(spot[0], v), spot[1..], close);
      Onward(ps, n, |SpotParts(spot[1..], close)|);
    }
  }

  lemma FirstIsBare(ps: seq<Placed>, parts: seq<Part>)
    requires Spells(ps, parts) && parts != [] && parts[0].Caseless?
    ensures ps[0].atom.Bare?
  {
    hide LayoutOk;
    assert Writes(ps[0].atom, parts[0]);
  }

  lemma SpotStarts(spot: seq<SpotItem>, close: Word)
    ensures SpotParts(spot, close)[0].Caseless?
  {
    hide PictsParts, OutlineParts, PointParts, Spelling;
    if spot != [] {
      assert SpotItemParts(spot[0])[0].Caseless?;
    }
  }

  // ---------- Rooms ----------

  function RoomWord(item: RoomItem): Word {
    match item
    case RoomId(_) => Id
    case RoomName(_) => Name
    case Background(_) => Pict
    case RoomNumber(word, _) => word
    case RoomText(word, _) => word
    case RoomPicture(_) => Picture
    case RoomSpot(open, _, _) => open
    case RoomProp(_) => Prop
    case RoomFlag(_) => Other
  }

  function RoomRest(item: RoomItem): seq<Part> {
    match item
    case RoomId(n) => [Integer(n)]
    case RoomName(name) => [Label(name)]
    case Background(file) => [Label(file)]
    case RoomNumber(_, n) => [Integer(n)]
    case RoomText(_, t) => [Label(t)]
    case RoomPicture(picture) => PictureParts(picture)
    case RoomSpot(_, spot, close) => SpotParts(spot, close)
    case RoomProp(body) => Exactly(body) + [WordPart(EndProp)]
    case RoomFlag(_) => []
  }

  lemma RoomItemSplit(item: RoomItem)
    requires RoomItemOk(item)
    ensures RoomItemParts(item) == [RoomItemParts(item)[0]] + RoomRest(item) && RoomWord(item) != EndRoom
  {
    hide Spelling, WordOf, PictureParts, SpotParts, PictureOk, SpotOk, PropAtomOk;
  }

  lemma RoomItemWord(a: Atom, item: RoomItem)
    requires RoomItemOk(item) && AtomOk(a) && Writes(a, RoomItemParts(item)[0])
    ensures WordOf(TokenOf(a)) == RoomWord(item)
  {
    hide Spelling, WordOf, PictureParts, SpotParts, PictureOk, SpotOk, PropAtomOk, TokenOf;
    if item.RoomFlag? {
      FlagToken(a, item.text);
    } else {
      WordRead(a, RoomWord(item));
    }
  }

  lemma RoomSame(s1: Src, s2: Src, v: RoomVars, refs: Refs)
    requires Ok(s1) && Ok(s2) && GetToken(s1) == GetToken(s2)
    ensures RoomLoop(s1, v, refs) == RoomLoop(s2, v, refs)
  {
    hide GetToken, WordOf, RoomStep;
  }

  lemma RoomTurn(ps: seq<Placed>, tail: bytes, token: bytes, v: RoomVars, refs: Refs, w: Word)
    requires LayoutOk(ps) && ps != [] && IsTail(tail)
    requires WordOf(TokenOf(ps[0].atom)) == w && w != EndRoom
    ensures var r := RoomStep(w, At(ps[1..], tail, TokenOf(ps[0].atom)), v, refs);
            RoomLoop(At(ps, tail, token), v, refs) == RoomLoop(r.s, r.v, r.refs)
  {
    hide GetToken, WordOf, RoomStep, At, TokenOf;
    TakeAtom(ps, tail, token);
  }

  lemma RoomClosed(ps: seq<Placed>, tail: bytes, token: bytes, v: RoomVars, refs: Refs)
    requires LayoutOk(ps) && ps != [] && IsTail(tail) && WordOf(TokenOf(ps[0].atom)) == EndRoom
    ensures RoomLoop(At(ps, tail, token), v, refs) == RoomEnd(At(ps[1..], tail, TokenOf(ps[0].atom)), refs)
  {
    hide GetToken, WordOf, RoomStep, At, TokenOf;
    TakeAtom(ps, tail, token);
  }

  /** Recording a hotspot's events is what the parser does when the hotspot closes. */
  /** nn shows a blank name as a question mark. */
  lemma TitleShown(name: bytes)
    ensures OrQuestion(name) == Title(name)
  {
    var left, right := TrimParts(name);
    hide Trim;
    if Trim(name) != "" {
      assert Trimmed(Trim(name)) && name[|left|] == Trim(name)[0];
    } else {
      assert forall i :: 0 <= i < |name| ==> name[i] == if i < |left| then left[i] else right[i - |left|];
    }
  }

  /** What the parser records of a place. */
  lemma RefsShown(v: RoomVars, spot: SpotVars, id: int16)
    ensures BackgroundOf(v) == MediaRef(Title(v.name), v.id, "", 0, BackgroundRef)
    ensures PictureOf(v, id) == MediaRef(Title(v.name), v.id, "Picture layer", id, PictureRef)
    ensures SpotOf(v, spot) == MediaRef(Title(v.name), v.id, Title(spot.name), spot.id, SpotRef)
  {
    hide OrQuestion, Title;
    TitleShown(v.name);
    TitleShown(spot.name);
  }

  /** Recording a hotspot's events is what the parser does when the hotspot closes. */
  lemma {:induction false} SpotRecorded(m: Refs, v: RoomVars, spot: SpotVars, ids: seq<int16>)
    ensures AddedSpot(m, v, spot, ids) == Recorded(m, SpotEvents(v, spot, ids))
    decreases |ids|
  {
    hide AddedFirst, SpotOf, Title;
    if ids != [] {
      var fn := FileOf(v, ids[0]);
      var rest := SpotEvents(v, spot, ids[1..]);
      RefsShown(v, spot, 0);
      if fn == "" {
        assert SpotEvents(v, spot, ids) == [] + rest == rest;
        SpotRecorded(m, v, spot, ids[1..]);
      } else {
        var e := Event(fn, SpotOf(v, spot));
        assert SpotEvents(v, spot, ids) == [e] + rest;
        assert ([e] + rest)[1..] == rest;
        SpotRecorded(AddedFirst(m, fn, SpotOf(v, spot)), v, spot, ids[1..]);
      }
    }
  }

  lemma RecordedOne(m: Refs, e: Event)
    ensures Recorded(m, [e]) == AddedFirst(m, e.file, e.ref)
  {
    hide AddedFirst;
    assert [e][1..] == [];
  }

  lemma RoomNumberRead(ps: seq<Placed>, tail: bytes, token: bytes, v: RoomVars, refs: Refs, item: RoomItem)
    requires Spells(ps, RoomRest(item)) && RoomItemOk(item) && IsTail(tail) && |RoomRest(item)| < |ps|
    requires item.RoomId? || item.RoomNumber?
    ensures var r := RoomStep(RoomWord(item), At(ps, tail, token), v, refs);
            && r.v == ItemSaid(item, v) && r.refs == Recorded(refs, ItemEvents(item, v))
            && GetToken(r.s) == GetToken(At(ps[|RoomRest(item)|..], tail, ""))
  {
    hide ReadInt, ReadString, At, Spelling, Cut, SkipProp, PictureParts, SpotParts, BlockStep, AddedFirst, GetToken;
    hide IsTail, PropAtomOk, AtomOk, Fuel, Ok, PictureOk, SpotOk, Dec, BackgroundOf, LayoutOk, TokenOf;
    LayoutFrom(ps, 1);
    var rest := RoomRest(item);
    assert Writes(ps[0].atom, rest[0]);
    TakeNumber(ps, tail, token, item.n);
    TokenForgotten(ps[1..], tail, TokenOf(ps[0].atom), "");
  }

  lemma RoomTextRead(ps: seq<Placed>, tail: bytes, token: bytes, v: RoomVars, refs: Refs, item: RoomItem)
    requires Spells(ps, RoomRest(item)) && RoomItemOk(item) && IsTail(tail) && |RoomRest(item)| < |ps|
    requires item.RoomName? || item.RoomText?
    ensures var r := RoomStep(RoomWord(item), At(ps, tail, token), v, refs);
            && r.v == ItemSaid(item, v) && r.refs == Recorded(refs, ItemEvents(item, v))
            && GetToken(r.s) == GetToken(At(ps[|RoomRest(item)|..], tail, ""))
  {
    hide ReadInt, ReadString, At, Spelling, Cut, SkipProp, PictureParts, SpotParts, BlockStep, AddedFirst, GetToken;
    hide IsTail, PropAtomOk, AtomOk, Fuel, Ok, PictureOk, SpotOk, Dec, BackgroundOf, LayoutOk, TokenOf;
    LayoutFrom(ps, 1);
    var rest := RoomRest(item);
    assert Writes(ps[0].atom, rest[0]);
    TakeString(ps, tail, token, if item.RoomName? then item.name else item.s);
    TokenForgotten(ps[1..], tail, token, "");
  }

  lemma BackgroundRead(ps: seq<Placed>, tail: bytes, token: bytes, v: RoomVars, refs: Refs, item: RoomItem)
    requires Spells(ps, RoomRest(item)) && RoomItemOk(item) && IsTail(tail) && |RoomRest(item)| < |ps|
    requires item.Background?
    ensures var r := RoomStep(RoomWord(item), At(ps, tail, token), v, refs);
            && r.v == ItemSaid(item, v) && r.refs == Recorded(refs, ItemEvents(item, v))
            && GetToken(r.s) == GetToken(At(ps[|RoomRest(item)|..], tail, ""))
  {
    hide ReadInt, ReadString, At, Spelling, Cut, SkipProp, PictureParts, SpotParts, BlockStep, AddedFirst, GetToken;
    hide IsTail, PropAtomOk, AtomOk, Fuel, Ok, PictureOk, SpotOk, Dec, BackgroundOf, LayoutOk, TokenOf;
    LayoutFrom(ps, 1);
    var rest := RoomRest(item);
    assert Writes(ps[0].atom, rest[0]);
    TakeString(ps, tail, token, item.file);
    TokenForgotten(ps[1..], tail, token, "");
    RefsShown(v, SpotVars(0, "", []), 0);
    RecordedOne(refs, Event(Cut(item.file), BackgroundOf(v)));
  }

  lemma PlainRoomStep(w: Word, s: Src, v: RoomVars, refs: Refs)
    requires Ok(s) && (w.Other? || w.Prop?)
    ensures RoomStep(w, s, v, refs) == RoomAt(v, refs, if w.Prop? then SkipProp(s) else s)
  {
    hide ReadInt, ReadString, SkipProp, PictureLoop, SpotLoop, AddedFirst, AfterPicture, AfterSpot;
    hide BlockStep;
    PlainBlockStep(w, s, v, refs);
  }

  lemma PlainBlockStep(w: Word, s: Src, v: RoomVars, refs: Refs)
    requires Ok(s) && (w.Other? || w.Prop?)
    ensures BlockStep(w, s, v, refs) == RoomAt(v, refs, if w.Prop? then SkipProp(s) else s)
  {
    hide SkipProp, PictureLoop, SpotLoop, AfterPicture, AfterSpot;
  }

  lemma FlagOrPropRead(ps: seq<Placed>, tail: bytes, token: bytes, v: RoomVars, refs: Refs, item: RoomItem)
    requires Spells(ps, RoomRest(item)) && RoomItemOk(item) && IsTail(tail) && |RoomRest(item)| < |ps|
    requires item.RoomFlag? || item.RoomProp?
    ensures var r := RoomStep(RoomWord(item), At(ps, tail, token), v, refs);
            && r.v == ItemSaid(item, v) && r.refs == Recorded(refs, ItemEvents(item, v))
            && GetToken(r.s) == GetToken(At(ps[|RoomRest(item)|..], tail, ""))
  {
    hide At, Spelling, SkipProp, GetToken, RoomStep, IsTail, PropAtomOk, AtomOk, Fuel, Ok, LayoutOk, TokenOf;
    var rest := RoomRest(item);
    PlainRoomStep(RoomWord(item), At(ps, tail, token), v, refs);
    if item.RoomFlag? {
      assert ps[0..] == ps;
      TokenForgotten(ps, tail, token, "");
    } else {
      PropRead(ps, tail, token, item.body);
      LayoutFrom(ps, |rest|);
      TokenForgotten(ps[|rest|..], tail, TokenOf(ps[|rest| - 1].atom), "");
    }
  }

  lemma RoomPictureRead(ps: seq<Placed>, tail: bytes, token: bytes, v: RoomVars, refs: Refs, item: RoomItem)
    requires Spells(ps, RoomRest(item)) && RoomItemOk(item) && IsTail(tail) && |RoomRest(item)| < |ps|
    requires item.RoomPicture?
    ensures var r := RoomStep(RoomWord(item), At(ps, tail, token), v, refs);
            && r.v == ItemSaid(item, v) && r.refs == Recorded(refs, ItemEvents(item, v))
            && GetToken(r.s) == GetToken(At(ps[|RoomRest(item)|..], tail, ""))
  {
    hide ReadInt, ReadString, At, Spelling, Cut, SkipProp, PictureParts, SpotParts, BlockStep, AddedFirst, GetToken;
    hide IsTail, PropAtomOk, AtomOk, Fuel, Ok, PictureOk, SpotOk, Dec, RoomStep, Recorded, PictureLoop, SpotLoop;
    hide PictureSays, SpotSays, PictureOf, AddedSpot, SpotEvents, ToInt16;
    var rest := RoomRest(item);
    PictureRoomStep(At(ps, tail, token), v, refs);
    PictureRead(ps, tail, token, PictureVars(ToInt16(v.picOrdinal + 1), ""), item.picture);
    TokenForgotten(ps[|rest|..], tail, TokenOf(ps[|rest| - 1].atom), "");
    PictureRecorded(refs, v, item.picture);
  }

  lemma PictureRecorded(refs: Refs, v: RoomVars, picture: seq<PictureItem>)
    ensures AddedPicture(refs, v, PictureIn(v, picture)) == Recorded(refs, ItemEvents(RoomPicture(picture), v))
  {
    hide AddedFirst, PictureIn, PictureOf;
    var p := PictureIn(v, picture);
    RefsShown(v, SpotVars(0, "", []), p.id);
    RecordedOne(refs, Event(p.fname, PictureOf(v, p.id)));
  }

  lemma RoomSpotRead(ps: seq<Placed>, tail: bytes, token: bytes, v: RoomVars, refs: Refs, item: RoomItem)
    requires Spells(ps, RoomRest(item)) && RoomItemOk(item) && IsTail(tail) && |RoomRest(item)| < |ps|
    requires item.RoomSpot?
    ensures var r := RoomStep(RoomWord(item), At(ps, tail, token), v, refs);
            && r.v == ItemSaid(item, v) && r.refs == Recorded(refs, ItemEvents(item, v))
            && GetToken(r.s) == GetToken(At(ps[|RoomRest(item)|..], tail, ""))
  {
    hide ReadInt, ReadString, At, Spelling, Cut, SkipProp, PictureParts, SpotParts, BlockStep, AddedFirst, GetToken;
    hide IsTail, PropAtomOk, AtomOk, Fuel, Ok, PictureOk, SpotOk, Dec, RoomStep, Recorded, PictureLoop, SpotLoop;
    hide PictureSays, SpotSays, PictureOf, AddedSpot, SpotEvents, ToInt16;
    var rest := RoomRest(item);
    var start := SpotVars(ToInt16(v.hotOrdinal + 1), "", []);
    SpotRoomStep(item.open, At(ps, tail, token), v, refs);
    SpotRead(ps, tail, token, start, item.spot, item.close);
    TokenForgotten(ps[|rest|..], tail, TokenOf(ps[|rest| - 1].atom), "");
    SpotRecorded(refs, v, SpotSays(item.spot, start), SpotSays(item.spot, start).ids);
  }

  lemma RoomStepRead(ps: seq<Placed>, tail: bytes, token: bytes, v: RoomVars, refs: Refs, item: RoomItem)
    requires Spells(ps, RoomRest(item)) && RoomItemOk(item) && IsTail(tail) && |RoomRest(item)| < |ps|
    ensures var r := RoomStep(RoomWord(item), At(ps, tail, token), v, refs);
            && r.v == ItemSaid(item, v) && r.refs == Recorded(refs, ItemEvents(item, v))
            && GetToken(r.s) == GetToken(At(ps[|RoomRest(item)|..], tail, ""))
  {
    hide RoomStep, RoomWord, RoomRest, ItemSaid, ItemEvents, RoomItemOk, At, GetToken, IsTail, Recorded;
    match item
    case RoomId(_) => RoomNumberRead(ps, tail, token, v, refs, item);
    case RoomNumber(_, _) => RoomNumberRead(ps, tail, token, v, refs, item);
    case RoomName(_) => RoomTextRead(ps, tail, token, v, refs, item);
    case RoomText(_, _) => RoomTextRead(ps, tail, token, v, refs, item);
    case Background(_) => BackgroundRead(ps, tail, token, v, refs, item);
    case RoomPicture(_) => RoomPictureRead(ps, tail, token, v, refs, item);
    case RoomSpot(_, _, _) => RoomSpotRead(ps, tail, token, v, refs, item);
    case _ => FlagOrPropRead(ps, tail, token, v, refs, item);
  }

  lemma RoomItemRead(ps: seq<Placed>, tail: bytes, token: bytes, v: RoomVars, refs: Refs, item: RoomItem)
    requires Spells(ps, RoomItemParts(item)) && RoomItemOk(item) && IsTail(tail) && |RoomItemParts(item)| < |ps|
    ensures RoomLoop(At(ps, tail, token), v, refs) ==
            RoomLoop(At(ps[|RoomItemParts(item)|..], tail, ""), ItemSaid(item, v), Recorded(refs, ItemEvents(item, v)))
  {
    hide GetToken, WordOf, RoomStep, RoomLoop, At, ItemSaid, RoomItemParts, RoomRest, RoomItemOk, RoomWord, TokenOf;
    hide IsTail, Recorded, ItemEvents;
    var n := |RoomItemParts(item)|;
    RoomItemSplit(item);
    var a := RoomItemParts(item)[0];
    SpellsBoth(ps, [a], RoomRest(item));
    assert Writes(ps[0].atom, [a][0]);
    RoomItemWord(ps[0].atom, item);
    RoomTurn(ps, tail, token, v, refs, RoomWord(item));
    assert ps[1..][|RoomRest(item)|..] == ps[n..];
    RoomStepRead(ps[1..], tail, TokenOf(ps[0].atom), v, refs, item);
    var r := RoomStep(RoomWord(item), At(ps[1..], tail, TokenOf(ps[0].atom)), v, refs);
    RoomSame(r.s, At(ps[n..], tail, ""), r.v, r.refs);
  }

  /** A written room is read to ENDROOM and records its events in order. */
  lemma {:induction false} RoomRead(ps: seq<Placed>, tail: bytes, token: bytes, v: RoomVars, refs: Refs,
                                    room: seq<RoomItem>)
    requires Spells(ps, RoomParts(room)) && RoomOk(room) && IsTail(tail)
    ensures RoomLoop(At(ps, tail, token), v, refs) ==
            RoomEnd(At(ps[|RoomParts(room)|..], tail, TokenOf(ps[|RoomParts(room)| - 1].atom)), Recorded(refs, RoomEvents(room, v)))
    decreases |room|
  {
    hide GetToken, WordOf, RoomStep, At, Spelling, ItemSaid, RoomItemParts, RoomItemOk, RoomLoop, IsTail;
    hide ItemEvents, AddedFirst, LayoutOk, TokenOf, WordPart, Writes;
    if room == [] {
      assert Writes(ps[0].atom, RoomParts(room)[0]);
      WordToken(ps, EndRoom);
      RoomClosed(ps, tail, token, v, refs);
    } else {
      var n := |RoomItemParts(room[0])|;
      SpellsBoth(ps, RoomItemParts(room[0]), RoomParts(room[1..]));
      RoomItemRead(ps, tail, token, v, refs, room[0]);
      var refs2, v2 := Recorded(refs, ItemEvents(room[0], v)), ItemSaid(room[0], v);
      RoomRead(ps[n..], tail, "", v2, refs2, room[1..]);
      Onward(ps, n, |RoomParts(room[1..])|);
      RecordedAppend(refs, ItemEvents(room[0], v), RoomEvents(room[1..], v2));
    }
  }

  // ---------- Files ----------

  lemma TopSame(s1: Src, s2: Src, refs: Refs)
    requires Ok(s1) && Ok(s2) && GetToken(s1) == GetToken(s2)
    ensures TopLoop(s1, refs) == TopLoop(s2, refs)
  {
    hide GetToken, WordOf, RoomLoop, ReadInt, SkipLongs, SkipBanRec2;
  }

  lemma RoomTop(ps: seq<Placed>, tail: bytes, token: bytes, refs: Refs, room: seq<RoomItem>)
    requires Spells(ps, TopItemParts(RoomBlock(room))) && RoomOk(room) && IsTail(tail)
    requires |TopItemParts(RoomBlock(room))| < |ps|
    ensures TopLoop(At(ps, tail, token), refs) ==
            TopLoop(At(ps[|TopItemParts(RoomBlock(room))|..], tail, ""), Recorded(refs, RoomEvents(room, NEW_ROOM)))
  {
    hide GetToken, WordOf, RoomLoop, ReadInt, SkipLongs, SkipBanRec2, At, Spelling, RoomParts, IsTail, Recorded;
    hide RoomEvents, LayoutOk, TokenOf, WordPart;
    SpellsBoth(ps, [WordPart(Room)], RoomParts(room));
    assert Writes(ps[0].atom, [WordPart(Room)][0]);
    TakeAtom(ps, tail, token);
    WordToken(ps, Room);
    RoomRead(ps[1..], tail, TokenOf(ps[0].atom), NEW_ROOM, refs, room);
    var n := 1 + |RoomParts(room)|;
    Onward(ps, 1, |RoomParts(room)|);
    LayoutFrom(ps, n);
    var t := TokenOf(ps[n - 1].atom);
    TokenForgotten(ps[n..], tail, t, "");
    TopSame(At(ps[n..], tail, t), At(ps[n..], tail, ""), Recorded(refs, RoomEvents(room, NEW_ROOM)));
  }

  lemma EntranceTop(ps: seq<Placed>, tail: bytes, token: bytes, refs: Refs, n: int64)
    requires Spells(ps, TopItemParts(EntranceId(n))) && IsTail(tail) && 2 < |ps|
    ensures TopLoop(At(ps, tail, token), refs) == TopLoop(At(ps[2..], tail, ""), refs)
  {
    hide GetToken, WordOf, RoomLoop, ReadInt, SkipLongs, SkipBanRec2, At, Spelling, IsTail, Dec, LayoutOk, TokenOf, WordPart;
    LayoutFrom(ps, 1);
    LayoutFrom(ps, 2);
    var parts := TopItemParts(EntranceId(n));
    assert Writes(ps[0].atom, parts[0]) && Writes(ps[1].atom, parts[1]);
    TakeAtom(ps, tail, token);
    WordToken(ps, Entrance);
    TakeNumber(ps[1..], tail, TokenOf(ps[0].atom), n);
    assert ps[1..][1..] == ps[2..];
    var t := TokenOf(ps[1].atom);
    TokenForgotten(ps[2..], tail, t, "");
    TopSame(At(ps[2..], tail, t), At(ps[2..], tail, ""), refs);
  }

  lemma {:induction false} NumbersSkipped(ps: seq<Placed>, tail: bytes, token: bytes, ns: seq<int64>)
    requires Spells(ps, Integers(ns)) && IsTail(tail)
    ensures exists t :: SkipLongs(At(ps, tail, token), |ns|) == At(ps[|ns|..], tail, t)
    decreases |ns|
  {
    hide ReadInt, At, IsTail, LayoutOk, TokenOf, Writes;
    if ns == [] {
      assert ps[0..] == ps;
      assert SkipLongs(At(ps, tail, token), 0) == At(ps, tail, token);
    } else {
      assert Writes(ps[0].atom, Integers(ns)[0]);
      TakeNumber(ps, tail, token, ns[0]);
      assert Integers(ns) == [Integer(ns[0])] + Integers(ns[1..]);
      SpellsBoth(ps, [Integer(ns[0])], Integers(ns[1..]));
      NumbersSkipped(ps[1..], tail, TokenOf(ps[0].atom), ns[1..]);
      Onward(ps, 1, |ns| - 1);
    }
  }

  lemma BanTop(ps: seq<Placed>, tail: bytes, token: bytes, refs: Refs, a: int64, b: int64, c: int64)
    requires Spells(ps, TopItemParts(Ban(a, b, c))) && IsTail(tail) && 4 < |ps|
    ensures TopLoop(At(ps, tail, token), refs) == TopLoop(At(ps[4..], tail, ""), refs)
  {
    hide GetToken, WordOf, RoomLoop, ReadInt, SkipLongs, SkipBanRec2, At, Spelling, IsTail, Dec, LayoutOk, TokenOf, WordPart, Writes;
    var ns := [a, b, c];
    assert TopItemParts(Ban(a, b, c)) == [WordPart(BanRec)] + Integers(ns);
    SpellsBoth(ps, [WordPart(BanRec)], Integers(ns));
    assert Writes(ps[0].atom, [WordPart(BanRec)][0]);
    TakeAtom(ps, tail, token);
    WordToken(ps, BanRec);
    LayoutFrom(ps, 4);
    NumbersSkipped(ps[1..], tail, TokenOf(ps[0].atom), ns);
    assert ps[1..][3..] == ps[4..];
    var t :| SkipLongs(At(ps[1..], tail, TokenOf(ps[0].atom)), 3) == At(ps[4..], tail, t);
    TokenForgotten(ps[4..], tail, t, "");
    TopSame(At(ps[4..], tail, t), At(ps[4..], tail, ""), refs);
  }

  /** The three names at the end of a BANREC2 entry. */
  lemma TextsSkipped(ps: seq<Placed>, tail: bytes, token: bytes, a: bytes, b: bytes, c: bytes)
    requires Spells(ps, Labels([a, b, c])) && IsTail(tail)
    ensures ReadString(ReadString(ReadString(At(ps, tail, token)).s).s).s == At(ps[3..], tail, token)
  {
    hide ReadString, At, IsTail, LayoutOk, Writes;
    var parts := Labels([a, b, c]);
    assert Writes(ps[0].atom, parts[0]) && Writes(ps[1].atom, parts[1]) && Writes(ps[2].atom, parts[2]);
    LayoutFrom(ps, 1);
    LayoutFrom(ps, 2);
    TakeString(ps, tail, token, a);
    TakeString(ps[1..], tail, token, b);
    assert ps[1..][1..] == ps[2..] && ps[2..][1..] == ps[3..];
    TakeString(ps[2..], tail, token, c);
  }

  /** A BANREC2 entry is one token, twelve numbers and three names. */
  lemma BanRec2Skipped(ps: seq<Placed>, tail: bytes, token: bytes, head: Atom, ns: seq<int64>, texts: seq<bytes>)
    requires Spells(ps, [Just(head)] + (Integers(ns) + Labels(texts))) && IsTail(tail) && |ns| == 12 && |texts| == 3
    ensures exists t :: SkipBanRec2(At(ps, tail, token)) == At(ps[16..], tail, t)
  {
    hide GetToken, ReadInt, ReadString, SkipLongs, At, IsTail, LayoutOk, TokenOf, Writes;
    SpellsBoth(ps, [Just(head)], Integers(ns) + Labels(texts));
    SpellsBoth(ps[1..], Integers(ns), Labels(texts));
    assert ps[1..][12..] == ps[13..] && ps[13..][3..] == ps[16..];
    TakeAtom(ps, tail, token);
    var t0 := TokenOf(ps[0].atom);
    NumbersSkipped(ps[1..], tail, t0, ns);
    var t :| SkipLongs(At(ps[1..], tail, t0), 12) == At(ps[13..], tail, t);
    assert texts == [texts[0], texts[1], texts[2]];
    TextsSkipped(ps[13..], tail, t, texts[0], texts[1], texts[2]);
  }

  lemma Ban2Top(ps: seq<Placed>, tail: bytes, token: bytes, refs: Refs, head: Atom, ns: seq<int64>, texts: seq<bytes>)
    requires Spells(ps, TopItemParts(Ban2(head, ns, texts))) && IsTail(tail) && |ns| == 12 && |texts| == 3 && 17 < |ps|
    ensures TopLoop(At(ps, tail, token), refs) == TopLoop(At(ps[17..], tail, ""), refs)
  {
    hide GetToken, WordOf, RoomLoop, ReadInt, SkipLongs, SkipBanRec2, At, Spelling, IsTail, LayoutOk, TokenOf, WordPart, Writes;
    var rest := [Just(head)] + (Integers(ns) + Labels(texts));
    assert TopItemParts(Ban2(head, ns, texts)) == [WordPart(BanRec2)] + rest;
    SpellsBoth(ps, [WordPart(BanRec2)], rest);
    assert Writes(ps[0].atom, [WordPart(BanRec2)][0]);
    TakeAtom(ps, tail, token);
    WordToken(ps, BanRec2);
    LayoutFrom(ps, 17);
    BanRec2Skipped(ps[1..], tail, TokenOf(ps[0].atom), head, ns, texts);
    assert ps[1..][16..] == ps[17..];
    var t :| SkipBanRec2(At(ps[1..], tail, TokenOf(ps[0].atom))) == At(ps[17..], tail, t);
    TokenForgotten(ps[17..], tail, t, "");
    TopSame(At(ps[17..], tail, t), At(ps[17..], tail, ""), refs);
  }

  lemma FlagTop(ps: seq<Placed>, tail: bytes, token: bytes, refs: Refs, text: bytes)
    requires Spells(ps, [Caseless(text)]) && FlagOk(text) && IsTail(tail) && 1 < |ps|
    ensures TopLoop(At(ps, tail, token), refs) == TopLoop(At(ps[1..], tail, ""), refs)
  {
    hide GetToken, WordOf, RoomLoop, ReadInt, SkipLongs, SkipBanRec2, At, IsTail;
    assert Writes(ps[0].atom, [Caseless(text)][0]);
    FlagToken(ps[0].atom, text);
    TakeAtom(ps, tail, token);
    var t := TokenOf(ps[0].atom);
    TokenForgotten(ps[1..], tail, t, "");
    TopSame(At(ps[1..], tail, t), At(ps[1..], tail, ""), refs);
  }

  function TopEvents(item: TopItem): seq<Event> {
    if item.RoomBlock? then RoomEvents(item.room, NEW_ROOM) else []
  }

  lemma TopItemRead(ps: seq<Placed>, tail: bytes, token: bytes, refs: Refs, item: TopItem)
    requires Spells(ps, TopItemParts(item)) && TopItemOk(item) && IsTail(tail) && |TopItemParts(item)| < |ps|
    ensures TopLoop(At(ps, tail, token), refs) ==
            TopLoop(At(ps[|TopItemParts(item)|..], tail, ""), Recorded(refs, TopEvents(item)))
  {
    hide TopLoop, At, IsTail, RoomEvents, AddedFirst, Spelling, RoomParts, RoomOk;
    match item
    case RoomBlock(room) => RoomTop(ps, tail, token, refs, room);
    case EntranceId(n) => EntranceTop(ps, tail, token, refs, n);
    case Ban(a, b, c) => BanTop(ps, tail, token, refs, a, b, c);
    case Ban2(head, ns, texts) => Ban2Top(ps, tail, token, refs, head, ns, texts);
    case TopFlag(text) => FlagTop(ps, tail, token, refs, text);
  }

  lemma EndTop(ps: seq<Placed>, tail: bytes, token: bytes, refs: Refs)
    requires LayoutOk(ps) && ps != [] && Writes(ps[0].atom, WordPart(End)) && IsTail(tail)
    ensures TopLoop(At(ps, tail, token), refs) == refs
  {
    hide GetToken, WordOf, RoomLoop, ReadInt, SkipLongs, SkipBanRec2, At, Spelling, IsTail;
    TakeAtom(ps, tail, token);
    WordToken(ps, End);
  }

  lemma {:induction false} FileRead(ps: seq<Placed>, tail: bytes, token: bytes, refs: Refs, file: seq<TopItem>)
    requires Spells(ps, FileParts(file)) && FileOk(file) && IsTail(tail)
    ensures TopLoop(At(ps, tail, token), refs) == Recorded(refs, FileEvents(file))
    decreases |file|
  {
    hide TopLoop, At, IsTail, RoomEvents, AddedFirst, Spelling, TopItemParts, TopItemOk;
    if file == [] {
      assert Writes(ps[0].atom, FileParts(file)[0]);
      EndTop(ps, tail, token, refs);
    } else {
      var n := |TopItemParts(file[0])|;
      SpellsBoth(ps, TopItemParts(file[0]), FileParts(file[1..]));
      TopItemRead(ps, tail, token, refs, file[0]);
      FileRead(ps[n..], tail, "", Recorded(refs, TopEvents(file[0])), file[1..]);
      RecordedAppend(refs, TopEvents(file[0]), FileEvents(file[1..]));
    }
  }

  // ---------- Main results ----------

  /** In any layout, with anything after END, the parser records exactly the file's events, in order. */
  lemma FirstRefsMeaning(ps: seq<Placed>, file: seq<TopItem>, after: bytes)
    requires LayoutOk(ps) && FileOk(file) && |ps| == |FileParts(file)| && Spells(ps, FileParts(file))
    requires after == [] || !IsWordByte(after[0])
    ensures FirstRefs(Text(ps) + after) == Recorded(map[], FileEvents(file))
  {
    hide TopLoop, Text, FileParts, FileEvents, Recorded;
    var tail := after + [NUL];
    FileRead(ps, tail, "", map[], file);
    assert Text(ps) + after + [NUL] == Text(ps) + tail;
  }

  /** A key is found exactly when some event names it, and then gives the first such event's reference. */
  lemma FirstRefsFirst(ps: seq<Placed>, file: seq<TopItem>, after: bytes, k: bytes)
    requires LayoutOk(ps) && FileOk(file) && |ps| == |FileParts(file)| && Spells(ps, FileParts(file))
    requires after == [] || !IsWordByte(after[0])
    ensures var found, events := FirstRefs(Text(ps) + after), FileEvents(file);
            var first := FirstNaming(events, k);
            && (k in found <==> first < |events|)
            && (k in found ==> found[k] == events[first].ref)
  {
    hide FirstRefs, Text, FileParts, FileEvents, Recorded, FirstNaming;
    FirstRefsMeaning(ps, file, after);
    RecordedFirst(map[], FileEvents(file), k);
  }
}
