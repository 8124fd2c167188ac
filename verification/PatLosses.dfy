/** What the first-reference parser loses: everything after a PICTS list whose closing word it swallows, and
    every reference of a hotspot. */
module PatLosses {
  import opened Wrappers
  import opened Bytes
  import opened Numbers
  import opened PatScanner
  import opened WordMarks
  import opened PatWords
  import opened PatRefs
  import opened PatLayout
  import opened PatMeaning
  import opened PatReading
  import opened PatPicts
  import opened PatRoomReading

  // ---------- A swallowed closing word ----------

  const COMMA_LIST: seq<PictsEntry> := [PictsEntry(1, true, Two(10, 20))]

  const COMMA_SPOT: seq<SpotItem> := [SpotPicts(Picts, COMMA_LIST, EndPicts)]

  /** A room whose hotspot lists the picture 1,10,20, and then its background. */
  const COMMA_FILE: seq<TopItem> := [RoomBlock([RoomSpot(Spot, COMMA_SPOT, EndSpot), Background("b")])]

  /** What the parser does with the words after ENDPICTS: nothing. */
  const AFTER_LIST: seq<Part> := [WordPart(EndSpot), WordPart(Pict), Label("b"), WordPart(EndRoom), WordPart(End)]

  /** Nothing but the zero byte at the end is left. */
  predicate Spent(s: Src) {
    !s.ungot && s.rest == [NUL]
  }

  lemma SpentLoops(s: Src, ids: seq<int16>, v: SpotVars, room: RoomVars, refs: Refs)
    requires Spent(s)
    ensures PictsLoop(s, ids) == PictsEnd(ids, s)
    ensures SpotLoop(s, v) == SpotEnd(false, v, s)
    ensures RoomLoop(s, room, refs) == RoomEnd(s, refs)
    ensures TopLoop(s, refs) == refs
  {
    ScanEnd(s.rest);
    assert GetToken(s) == Got(false, s);
  }

  /** Once in the list, the loop passes over every token that is neither its closing word nor a number. */
  lemma {:induction false} WordsPassed(ps: seq<Placed>, token: bytes, ids: seq<int16>)
    requires LayoutOk(ps)
    requires forall i :: 0 <= i < |ps| ==> PassedOver(TokenOf(ps[i].atom))
    ensures var r := PictsLoop(At(ps, [NUL], token), ids); r.ids == ids && Spent(r.s)
    decreases |ps|
  {
    hide PictsLoop, LayoutOk, PassedOver;
    if ps == [] {
      assert [] + [NUL] == [NUL];
      SpentLoops(At(ps, [NUL], token), ids, SpotVars(0, "", []), NEW_ROOM, map[]);
    } else {
      LayoutFrom(ps, 1);
      PassedTurn(ps, token, ids);
      WordsPassed(ps[1..], TokenOf(ps[0].atom), ids);
    }
  }

  predicate PassedOver(token: bytes) {
    !IsClose(WordOf(token)) && !Atoi(token).ok
  }

  lemma PassedTurn(ps: seq<Placed>, token: bytes, ids: seq<int16>)
    requires LayoutOk(ps) && ps != [] && PassedOver(TokenOf(ps[0].atom))
    ensures PictsLoop(At(ps, [NUL], token), ids) == PictsLoop(At(ps[1..], [NUL], TokenOf(ps[0].atom)), ids)
  {
    hide PictsLoop, LayoutOk, WordOf, Atoi, At, TokenOf;
    PictsPassed(ps, [NUL], token, ids);
  }

  lemma WordPassed(a: Atom, w: Word)
    requires AtomOk(a) && Writes(a, WordPart(w)) && w != Other && !IsClose(w)
    ensures PassedOver(TokenOf(a))
  {
    hide Spelling, WordOf, TokenOf;
    WordRead(a, w);
    BareIsNoNumber(a);
  }

  lemma BareIsNoNumber(a: Atom)
    requires AtomOk(a) && a.Bare?
    ensures !Atoi(TokenOf(a)).ok
  {
  }

  lemma LetterPassed(a: Atom)
    requires AtomOk(a) && Writes(a, Label("b"))
    ensures PassedOver(TokenOf(a))
  {
    hide WordOf;
    if a.Str? {
      NoLetterNoWord(TokenOf(a));
    } else {
      LetterIsNoClose();
    }
  }

  lemma LetterIsNoClose()
    ensures !IsClose(WordOf("b"))
  {
    hide Spelling, Lookup, Trim, WordMark;
    TrimFixed("b");
    assert ToUpper("b") == "B";
    FoundIsSpelled("B");
    EndMarks();
    assert MarkOf("B").len == 1;
    if IsClose(Lookup("B")) {
      WordHasMark(Lookup("B"));
    }
  }

  lemma EndMarks()
    ensures WordMark(EndPicts).len > 1 && WordMark(EndPictIds).len > 1
  {
  }

  lemma CommaSpotSpelled()
    ensures SpotParts(COMMA_SPOT, EndSpot) == [WordPart(Picts)] + PictsParts(COMMA_LIST, EndPicts) + [WordPart(EndSpot)]
  {
    hide Spelling, PictsParts, COMMA_LIST;
    assert COMMA_SPOT[1..] == [];
  }

  lemma CommaRoomSpelled()
    ensures RoomParts(COMMA_FILE[0].room) ==
            [WordPart(Spot)] + SpotParts(COMMA_SPOT, EndSpot) + [WordPart(Pict), Label("b"), WordPart(EndRoom)]
  {
    hide Spelling, SpotParts, COMMA_SPOT;
    var room := COMMA_FILE[0].room;
    assert room[1..] == [Background("b")] && room[1..][1..] == [];
    assert RoomParts(room[1..]) == [WordPart(Pict), Label("b"), WordPart(EndRoom)];
  }

  lemma CommaFileSpelled()
    ensures FileParts(COMMA_FILE) ==
            [WordPart(Room), WordPart(Spot), WordPart(Picts)] + (PictsParts(COMMA_LIST, EndPicts) + AFTER_LIST)
    ensures |PictsParts(COMMA_LIST, EndPicts)| == 6
  {
    CommaSpotSpelled();
    CommaRoomSpelled();
    CommaListLength();
    hide Spelling, RoomParts, SpotParts, PictsParts, COMMA_LIST, COMMA_SPOT;
    assert COMMA_FILE[1..] == [];
  }

  lemma CommaListLength()
    ensures |PictsParts(COMMA_LIST, EndPicts)| == 6
  {
    hide Spelling;
    assert COMMA_LIST[1..] == [];
  }

  lemma AfterListPassed(ps: seq<Placed>)
    requires Spells(ps, AFTER_LIST) && |ps| == |AFTER_LIST|
    ensures forall i :: 0 <= i < |ps| ==> PassedOver(TokenOf(ps[i].atom))
  {
    hide PassedOver, TokenOf, Apart, GapsOk;
    assert forall i :: 0 <= i < |ps| ==> AtomOk(ps[i].atom) && Writes(ps[i].atom, AFTER_LIST[i]);
    WordPassed(ps[0].atom, EndSpot);
    WordPassed(ps[1].atom, Pict);
    LetterPassed(ps[2].atom);
    WordPassed(ps[3].atom, EndRoom);
    WordPassed(ps[4].atom, End);
  }

  /** The hotspot never closes, and the room ends with the text. */
  lemma CommaSpotRead(ps: seq<Placed>, token: bytes, v: SpotVars)
    requires Spells(ps, [WordPart(Picts)] + (PictsParts(COMMA_LIST, EndPicts) + AFTER_LIST)) && |ps| == 12 && v.ids == []
    ensures var r := SpotLoop(At(ps, [NUL], token), v); !r.closed && Spent(r.s)
  {
    hide PictsLoop, SpotLoop, LayoutOk, TokenOf, Spelling, WordOf, PictsParts, At;
    CommaFileSpelled();
    var list := PictsParts(COMMA_LIST, EndPicts);
    SpellsBoth(ps, [WordPart(Picts)], list + AFTER_LIST);
    SpellsBoth(ps[1..], list, AFTER_LIST);
    assert Writes(ps[0].atom, [WordPart(Picts)][0]);
    WordToken(ps, Picts);
    SpotTurn(ps, [NUL], token, v, Picts);
    CommaListLost(ps[1..], [NUL], TokenOf(ps[0].atom));
    AfterListPassed(ps[1..][6..]);
    WordsPassed(ps[1..][6..], TokenOf(ps[1..][5].atom), [1, 20]);
    var r := PictsLoop(At(ps[1..], [NUL], TokenOf(ps[0].atom)), []);
    SpentLoops(r.s, [], v.(ids := r.ids), NEW_ROOM, map[]);
  }

  /** The room means its background and the parser returns nothing. */
  lemma CommaListLosesRoom(ps: seq<Placed>)
    requires Spells(ps, FileParts(COMMA_FILE)) && |ps| == |FileParts(COMMA_FILE)|
    ensures FileEvents(COMMA_FILE) == [Event("b", MediaRef("?", 0, "", 0, BackgroundRef))]
    ensures FirstRefs(Text(ps)) == map[]
  {
    hide LayoutOk, TokenOf, Spelling, WordOf, PictsParts, At, FileParts, RoomLoop, TopLoop, Text, FileEvents;
    CommaFileMeaning();
    CommaFileSpelled();
    var rest := [WordPart(Picts)] + (PictsParts(COMMA_LIST, EndPicts) + AFTER_LIST);
    assert FileParts(COMMA_FILE) == [WordPart(Room), WordPart(Spot)] + rest;
    SpellsBoth(ps, [WordPart(Room), WordPart(Spot)], rest);
    assert Writes(ps[0].atom, [WordPart(Room), WordPart(Spot)][0]);
    LayoutFrom(ps, 1);
    CommaRoomRead(ps[1..], TokenOf(ps[0].atom));
    TakeAtom(ps, [NUL], "");
    WordToken(ps, Room);
    var r := RoomLoop(At(ps[1..], [NUL], TokenOf(ps[0].atom)), NEW_ROOM, map[]);
    RoomOnTop(At(ps, [NUL], ""), map[]);
    SpentLoops(r.s, [], SpotVars(0, "", []), NEW_ROOM, map[]);
    AtStart(ps);
  }

  lemma AtStart(ps: seq<Placed>)
    ensures FirstRefs(Text(ps)) == TopLoop(At(ps, [NUL], ""), map[])
  {
    hide TopLoop;
  }

  lemma RoomOnTop(s: Src, refs: Refs)
    requires Ok(s) && GetToken(s).ok && WordOf(GetToken(s).s.token) == Room
    ensures var r := RoomLoop(GetToken(s).s, NEW_ROOM, refs); TopLoop(s, refs) == TopLoop(r.s, r.refs)
  {
    hide GetToken, WordOf, RoomLoop;
  }

  lemma CommaRoomRead(ps: seq<Placed>, token: bytes)
    requires |ps| == 13 && LayoutOk(ps) && Writes(ps[0].atom, WordPart(Spot))
    requires Spells(ps[1..], [WordPart(Picts)] + (PictsParts(COMMA_LIST, EndPicts) + AFTER_LIST))
    ensures var r := RoomLoop(At(ps, [NUL], token), NEW_ROOM, map[]); r.refs == map[] && Spent(r.s)
  {
    hide LayoutOk, TokenOf, Spelling, WordOf, PictsParts, At, RoomLoop, SpotLoop, RoomStep, Spells;
    WordToken(ps, Spot);
    RoomTurn(ps, [NUL], token, NEW_ROOM, map[], Spot);
    var s := At(ps[1..], [NUL], TokenOf(ps[0].atom));
    var v := SpotVars(ToInt16(NEW_ROOM.hotOrdinal + 1), "", []);
    CommaSpotRead(ps[1..], TokenOf(ps[0].atom), v);
    SpotRoomStep(Spot, s, NEW_ROOM, map[]);
    SpentLoops(SpotLoop(s, v).s, [], v, NEW_ROOM, map[]);
  }

  lemma CommaFileMeaning()
    ensures FileEvents(COMMA_FILE) == [Event("b", MediaRef("?", 0, "", 0, BackgroundRef))]
  {
    var room := COMMA_FILE[0].room;
    var spot := SpotIn(NEW_ROOM, COMMA_SPOT);
    var v := NEW_ROOM.(hotOrdinal := 1);
    assert COMMA_SPOT[1..] == [] && room[1..] == [Background("b")] && room[1..][1..] == [] && COMMA_FILE[1..] == [];
    assert EntryIds(COMMA_LIST) == [1] && [] + [1] == [1];
    var start := SpotVars(ToInt16(NEW_ROOM.hotOrdinal + 1), "", []);
    assert SpotSays([], SpotSaid(COMMA_SPOT[0], start)) == SpotSaid(COMMA_SPOT[0], start);
    assert spot == SpotSaid(COMMA_SPOT[0], start);
    assert spot.ids == [1] && [1][1..] == [];
    assert SpotEvents(NEW_ROOM, spot, [1]) == [];
    assert Cut("b") == "b";
    assert RoomEvents(room[1..], v) == [Event("b", MediaRef("?", 0, "", 0, BackgroundRef))] + RoomEvents([], v);
    assert RoomEvents(room, NEW_ROOM) == [] + RoomEvents(room[1..], v);
  }

  // ---------- References of hotspots ----------

  /** Every file a room's pictures stand for has its keys taken, and nothing taken is a hotspot's. */
  predicate Covered(v: RoomVars, refs: Refs) {
    && (forall id, k :: id in v.pics && k in PictureKeys(v.pics[id]) && k != "" ==> k in refs)
    && NoSpots(refs)
  }

  predicate NoSpots(refs: Refs) {
    forall k :: k in refs ==> refs[k].kind != SpotRef
  }

  lemma AddedKeepsNoSpots(m: Refs, fname: bytes, ref: MediaRef)
    requires NoSpots(m) && ref.kind != SpotRef
    ensures NoSpots(AddedFirst(m, fname, ref))
    ensures forall k :: k in m ==> k in AddedFirst(m, fname, ref)
    ensures forall k :: k in PictureKeys(fname) && k != "" ==> k in AddedFirst(m, fname, ref)
  {
    hide PictureKeys, AddedKeys;
    forall k ensures k in AddedFirst(m, fname, ref) <==> k in m || (k != "" && k in PictureKeys(fname))
      ensures k in AddedFirst(m, fname, ref) ==> AddedFirst(m, fname, ref)[k].kind != SpotRef {
      AddedKeysAt(m, PictureKeys(fname), ref, k);
    }
  }

  lemma {:induction false} NothingAdded(m: Refs, keys: seq<bytes>, ref: MediaRef)
    requires forall k :: k in keys && k != "" ==> k in m
    ensures AddedKeys(m, keys, ref) == m
    decreases |keys|
  {
    if keys != [] {
      assert keys[0] in keys;
      NothingAdded(m, keys[1..], ref);
    }
  }

  /** A hotspot's pictures have their keys taken by their own PICTURE blocks. */
  lemma {:induction false} SpotAddsNothing(m: Refs, v: RoomVars, spot: SpotVars, ids: seq<int16>)
    requires Covered(v, m)
    ensures AddedSpot(m, v, spot, ids) == m
    decreases |ids|
  {
    hide PictureKeys, SpotOf;
    if ids != [] {
      if FileOf(v, ids[0]) != "" {
        NothingAdded(m, PictureKeys(FileOf(v, ids[0])), SpotOf(v, spot));
      }
      SpotAddsNothing(m, v, spot, ids[1..]);
    }
  }

  lemma PictureCovered(p: PictureEnd, v: RoomVars, refs: Refs)
    requires Covered(v, refs)
    ensures var r := AfterPicture(p, v, refs); Covered(r.v, r.refs)
  {
    hide PictureKeys, AddedFirst, OrQuestion;
    AddedKeepsNoSpots(refs, p.v.fname, PictureOf(v, p.v.id));
  }

  lemma SpotCovered(p: SpotEnd, v: RoomVars, refs: Refs)
    requires Covered(v, refs)
    ensures var r := AfterSpot(p, v, refs); Covered(r.v, r.refs)
  {
    hide PictureKeys, AddedSpot;
    SpotAddsNothing(refs, v, p.v, p.v.ids);
  }

  lemma BlockCovered(w: Word, s: Src, v: RoomVars, refs: Refs)
    requires Ok(s) && Covered(v, refs)
    ensures var r := BlockStep(w, s, v, refs); Covered(r.v, r.refs)
  {
    hide PictureLoop, SpotLoop, AfterPicture, AfterSpot, SkipProp, Covered;
    if w == Picture {
      PictureCovered(PictureLoop(s, PictureVars(ToInt16(v.picOrdinal + 1), "")), v, refs);
    } else if OpensSpot(w) {
      SpotCovered(SpotLoop(s, SpotVars(ToInt16(v.hotOrdinal + 1), "", [])), v, refs);
    }
  }

  lemma StepCovered(w: Word, s: Src, v: RoomVars, refs: Refs)
    requires Ok(s) && Covered(v, refs)
    ensures var r := RoomStep(w, s, v, refs); Covered(r.v, r.refs)
  {
    hide ReadInt, ReadString, BlockStep, AddedFirst, PictureKeys, OrQuestion;
    BlockCovered(w, s, v, refs);
    if w == Pict {
      AddedKeepsNoSpots(refs, ReadString(s).v, BackgroundOf(v));
    }
  }

  lemma {:induction false} RoomCovered(s: Src, v: RoomVars, refs: Refs)
    requires Ok(s) && Covered(v, refs)
    ensures NoSpots(RoomLoop(s, v, refs).refs)
    decreases Fuel(s)
  {
    hide GetToken, WordOf, RoomStep;
    var g := GetToken(s);
    if g.ok && WordOf(g.s.token) != EndRoom {
      var w := WordOf(g.s.token);
      StepCovered(w, g.s, v, refs);
      var r := RoomStep(w, g.s, v, refs);
      RoomCovered(r.s, r.v, r.refs);
    }
  }

  lemma {:induction false} TopNoSpots(s: Src, refs: Refs)
    requires Ok(s) && NoSpots(refs)
    ensures NoSpots(TopLoop(s, refs))
    decreases Fuel(s)
  {
    hide GetToken, WordOf, RoomLoop, ReadInt, SkipLongs, SkipBanRec2, NoSpots;
    var g := GetToken(s);
    if g.ok {
      match WordOf(g.s.token)
      case Room =>
        NewRoomCovered(refs);
        RoomCovered(g.s, NEW_ROOM, refs);
        var r := RoomLoop(g.s, NEW_ROOM, refs);
        TopNoSpots(r.s, r.refs);
      case Entrance => TopNoSpots(ReadInt(g.s).s, refs);
      case BanRec => TopNoSpots(SkipLongs(g.s, 3), refs);
      case BanRec2 => TopNoSpots(SkipBanRec2(g.s), refs);
      case End =>
      case _ => TopNoSpots(g.s, refs);
    }
  }

  lemma NewRoomCovered(refs: Refs)
    requires NoSpots(refs)
    ensures Covered(NEW_ROOM, refs)
  {
  }

  /** On no text does the parser ever return a hotspot's reference: a hotspot only names pictures whose own
      reference came first. */
  lemma SpotNeverFirst(pat: bytes, k: bytes)
    ensures k in FirstRefs(pat) ==> FirstRefs(pat)[k].kind != SpotRef
  {
    hide TopLoop;
    TopNoSpots(Src(pat + [NUL], "", false), map[]);
  }
}
