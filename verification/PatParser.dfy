/** The first-reference parser of .pat text (internal/patparse/refs.go), working in place on a
    tokenizer and a reference map. Every loop terminates because it takes a token that no later
    push-back in the same turn gives back. */
module PatParser {
  import opened Bytes
  import opened Numbers
  import opened PatScanner
  import opened PatTokenizer
  import opened PatWords
  import opened PatRefs

  method SkipOutline(t: Tokenizer)
    requires t.Valid()
    modifies t
    ensures t.Valid() && t.View() == PatRefs.SkipOutline(old(t.View()))
  {
    hide PatScanner.GetToken;
    var xFlag := false;
    while true
      invariant t.Valid() && PatRefs.SkipOutline(t.View()) == PatRefs.SkipOutline(old(t.View()))
      decreases Fuel(t.View())
    {
      var ok := t.GetToken();
      if !ok {
        break;
      }
      var tok := t.token;
      if |tok| == 0 {
        continue;
      }
      if IsDigit(tok[0]) || (tok[0] == '-' && |tok| > 1 && IsDigit(tok[1])) {
        if xFlag {
          xFlag := false;
        } else {
          xFlag := true;
        }
      } else if tok != "," {
        t.UngetToken();
        break;
      }
    }
  }

  method SkipScript(t: Tokenizer)
    requires t.Valid()
    modifies t
    ensures t.Valid() && t.View() == PatRefs.SkipScript(old(t.View()))
  {
    hide PatScanner.GetToken, EqualFold;
    while true
      invariant t.Valid() && PatRefs.SkipScript(t.View()) == PatRefs.SkipScript(old(t.View()))
      decreases Fuel(t.View())
    {
      var ok := t.GetToken();
      if !ok || EqualFold(t.token, "ENDSCRIPT") {
        break;
      }
    }
  }

  method SkipProp(t: Tokenizer)
    requires t.Valid()
    modifies t
    ensures t.Valid() && t.View() == PatRefs.SkipProp(old(t.View()))
  {
    hide PatScanner.GetToken, WordOf;
    while true
      invariant t.Valid() && PatRefs.SkipProp(t.View()) == PatRefs.SkipProp(old(t.View()))
      decreases Fuel(t.View())
    {
      var ok := t.GetToken();
      if !ok || WordOf(t.token) == EndProp {
        return;
      }
    }
  }

  method SkipLongs(t: Tokenizer, n: nat)
    requires t.Valid()
    modifies t
    ensures t.Valid() && t.View() == PatRefs.SkipLongs(old(t.View()), n)
  {
    hide ReadInt;
    for i := 0 to n
      invariant t.Valid() && PatRefs.SkipLongs(t.View(), n - i) == PatRefs.SkipLongs(old(t.View()), n)
    {
      var _ := t.ParseLong();
    }
  }

  method SkipBanRec2(t: Tokenizer)
    requires t.Valid()
    modifies t
    ensures t.Valid() && t.View() == PatRefs.SkipBanRec2(old(t.View()))
  {
    hide PatScanner.GetToken, PatScanner.ReadString, PatRefs.SkipLongs;
    var ok := t.GetToken();
    if !ok {
      return;
    }
    SkipLongs(t, 12);
    var _, _ := t.ReadString();
    var _, _ := t.ReadString();
    var _, _ := t.ReadString();
  }

  method ParsePicture(t: Tokenizer, v: RoomVars, out: FirstRefMap) returns (w: RoomVars)
    requires t.Valid()
    modifies t, out
    ensures t.Valid() && RoomAt(w, out.refs, t.View()) == RoomStep(Picture, old(t.View()), v, old(out.refs))
  {
    hide PatScanner.GetToken, WordOf, PatScanner.ReadString, ReadInt, AddedFirst, RoomStep;
    PictureRoomStep(t.View(), v, out.refs);
    var picID: int16 := ToInt16(v.picOrdinal + 1);
    var fname: bytes := "";
    w := v;
    ghost var start := PictureVars(picID, "");
    while true
      invariant t.Valid() && w == v && out.refs == old(out.refs)
      invariant PictureLoop(t.View(), PictureVars(picID, fname)) == PictureLoop(old(t.View()), start)
      decreases Fuel(t.View())
    {
      var ok := t.GetToken();
      if !ok {
        return;
      }
      match WordOf(t.token) {
        case EndPicture =>
          w := w.(picOrdinal := w.picOrdinal + 1);
          if fname != "" {
            w := w.(pics := w.pics[picID := fname]);
            out.AddFirst(fname, MediaRef(OrQuestion(v.name), v.id, "Picture layer", picID, PictureRef));
          }
          return;
        case Id =>
          picID := t.ParseShort();
        case Name =>
          var read, s := t.ReadString();
          if read {
            fname := s;
          }
        case TransColor =>
          var _ := t.ParseShort();
        case _ =>
      }
    }
  }

  method ParsePicts(t: Tokenizer, ids: seq<int16>) returns (pictIDs: seq<int16>)
    requires t.Valid()
    modifies t
    ensures t.Valid() && PictsEnd(pictIDs, t.View()) == PictsLoop(old(t.View()), ids)
  {
    hide PatScanner.GetToken, WordOf, ReadPoint, Atoi;
    pictIDs := ids;
    while true
      invariant t.Valid() && PictsLoop(t.View(), pictIDs) == PictsLoop(old(t.View()), ids)
      decreases Fuel(t.View())
    {
      var ok := t.GetToken();
      if !ok {
        break;
      }
      var st := WordOf(t.token);
      if st == EndPicts || st == EndPictIds {
        break;
      }
      var a := Atoi(t.token);
      if !a.ok || a.v < -32768 || a.v > 32767 {
        continue;
      }
      var pid: int16 := a.v;
      ok := t.GetToken();
      if !ok {
        break;
      }
      if t.token == "," {
        ok := t.GetToken();
      } else {
        t.UngetToken();
      }
      var _, _ := t.ParsePoint();
      pictIDs := pictIDs + [pid];
    }
  }

  /** The switch of parseHotspot, after a word that does not close the block. */
  method HotspotDirective(t: Tokenizer, word: Word, v: SpotVars) returns (w: SpotVars)
    requires t.Valid()
    modifies t
    ensures t.Valid() && SpotAt(w, t.View()) == SpotStep(word, old(t.View()), v)
  {
    hide PatScanner.ReadString, ReadInt, PatRefs.SkipScript, PatRefs.SkipOutline, ReadPoint, PictsLoop;
    w := v;
    match word {
      case Name =>
        var read, s := t.ReadString();
        if read {
          w := w.(name := s);
        }
      case Id =>
        var n := t.ParseShort();
        w := w.(id := n);
      case Pict =>
        var n := t.ParseShort();
        w := w.(ids := w.ids + [n]);
      case PictId =>
        var n := t.ParseShort();
        w := w.(ids := w.ids + [n]);
      case Picts =>
        var ids := ParsePicts(t, w.ids);
        w := w.(ids := ids);
      case PictIds =>
        var ids := ParsePicts(t, w.ids);
        w := w.(ids := ids);
      case Dest =>
        var _ := t.ParseShort();
      case Door =>
        var _ := t.ParseShort();
      case Loc =>
        var _, _ := t.ParsePoint();
      case Script =>
        SkipScript(t);
      case Outline =>
        SkipOutline(t);
      case _ =>
    }
  }

  method ParseHotspot(t: Tokenizer, opening: Word, v: RoomVars, out: FirstRefMap) returns (w: RoomVars)
    requires t.Valid() && OpensSpot(opening)
    modifies t, out
    ensures t.Valid() && RoomAt(w, out.refs, t.View()) == RoomStep(opening, old(t.View()), v, old(out.refs))
  {
    hide PatScanner.GetToken, WordOf, SpotStep, RoomStep, AddedSpot;
    SpotRoomStep(opening, t.View(), v, out.refs);
    var spot := SpotVars(ToInt16(v.hotOrdinal + 1), "", []);
    w := v;
    ghost var start := spot;
    while true
      invariant t.Valid() && w == v && out.refs == old(out.refs)
      invariant SpotLoop(t.View(), spot) == SpotLoop(old(t.View()), start)
      decreases Fuel(t.View())
    {
      var ok := t.GetToken();
      if !ok {
        return;
      }
      var word := WordOf(t.token);
      if ClosesSpot(word) {
        w := w.(hotOrdinal := w.hotOrdinal + 1);
        AddSpot(v, spot, out);
        return;
      }
      spot := HotspotDirective(t, word, spot);
    }
  }

  /** The loop over the pictures of a closed hotspot. */
  method AddSpot(v: RoomVars, spot: SpotVars, out: FirstRefMap)
    modifies out
    ensures out.refs == AddedSpot(old(out.refs), v, spot, spot.ids)
  {
    hide AddedFirst;
    var ids := spot.ids;
    for i := 0 to |ids|
      invariant AddedSpot(out.refs, v, spot, ids[i..]) == AddedSpot(old(out.refs), v, spot, ids)
    {
      assert ids[i..][0] == ids[i] && ids[i..][1..] == ids[i + 1..];
      var fn := FileOf(v, ids[i]);
      if fn == "" {
        continue;
      }
      out.AddFirst(fn, MediaRef(OrQuestion(v.name), v.id, OrQuestion(spot.name), spot.id, SpotRef));
    }
  }

  method ParseRoom(t: Tokenizer, out: FirstRefMap)
    requires t.Valid()
    modifies t, out
    ensures t.Valid() && RoomEnd(t.View(), out.refs) == RoomLoop(old(t.View()), NEW_ROOM, old(out.refs))
  {
    hide PatScanner.GetToken, WordOf, PatScanner.ReadString, ReadInt, AddedFirst, PictureLoop, SpotLoop;
    hide PatRefs.SkipProp;
    var v := NEW_ROOM;
    while true
      invariant t.Valid()
      invariant RoomLoop(t.View(), v, out.refs) == RoomLoop(old(t.View()), NEW_ROOM, old(out.refs))
      decreases Fuel(t.View())
    {
      var ok := t.GetToken();
      if !ok {
        return;
      }
      var word := WordOf(t.token);
      if word == EndRoom {
        return;
      }
      ghost var before, vars, refs := t.View(), v, out.refs;
      if word == Id {
        var n := t.ParseInt();
        v := v.(id := n);
      } else if word == Name {
        var read, s := t.ReadString();
        if read {
          v := v.(name := s);
        }
      } else if word == MaxMembers || word == MaxGuests {
        var _ := t.ParseShort();
      } else if word == Faces {
        var _ := t.ParseLong();
      } else if word == Artist || word == Locked {
        var _, _ := t.ReadString();
      } else if word == Pict {
        var read, fn := t.ReadString();
        if read && fn != "" {
          out.AddFirst(fn, MediaRef(OrQuestion(v.name), v.id, "", 0, BackgroundRef));
        }
      } else if word == Picture {
        v := ParsePicture(t, v, out);
      } else if OpensSpot(word) {
        v := ParseHotspot(t, word, v, out);
      } else if word == Prop {
        SkipProp(t);
      }
      assert RoomAt(v, out.refs, t.View()) == RoomStep(word, before, vars, refs);
    }
  }

  method ParsePatFirstRefs(pat: bytes) returns (refs: Refs)
    ensures refs == FirstRefs(pat)
  {
    hide PatScanner.GetToken, WordOf, ReadInt, RoomLoop, PatRefs.SkipLongs, PatRefs.SkipBanRec2;
    var out := new FirstRefMap();
    var t := new Tokenizer(pat);
    while true
      invariant fresh(t) && fresh(out) && t.Valid()
      invariant TopLoop(t.View(), out.refs) == FirstRefs(pat)
      decreases Fuel(t.View())
    {
      var ok := t.GetToken();
      if !ok {
        break;
      }
      match WordOf(t.token) {
        case Room => ParseRoom(t, out);
        case Entrance => var _ := t.ParseInt();
        case BanRec => SkipLongs(t, 3);
        case BanRec2 => SkipBanRec2(t);
        case End => return out.refs;
        case _ =>
      }
    }
    return out.refs;
  }
}
