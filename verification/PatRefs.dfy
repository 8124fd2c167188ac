/** The first-reference parser of .pat text (internal/patparse/refs.go): what each loop of the
    parser computes, as functions of the tokenizer state. */
module PatRefs {
  import opened Bytes
  import opened Numbers
  import opened PatScanner
  import opened PatWords

  // ---------- References and lookup keys ----------

  datatype RefKind = BackgroundRef | PictureRef | SpotRef

  datatype MediaRef = MediaRef(roomName: bytes, roomId: int, spotName: bytes, spotId: int, kind: RefKind)

  type Refs = map<bytes, MediaRef>

  function DropSlashes(path: bytes): (r: bytes)
    ensures r == [] || r[|r| - 1] != '/'
  {
    if path != [] && path[|path| - 1] == '/' then DropSlashes(path[..|path| - 1]) else path
  }

  function AfterLastSlash(path: bytes): bytes {
    if path == [] then []
    else if path[|path| - 1] == '/' then []
    else AfterLastSlash(path[..|path| - 1]) + [path[|path| - 1]]
  }

  /** filepath.Base. */
  function Base(path: bytes): bytes {
    if path == "" then "."
    else
      var base := AfterLastSlash(DropSlashes(path));
      if base == "" then "/" else base
  }

  /** The lookup keys of a file name: its base name, and the whole path when it has a slash. */
  function PictureKeys(name: bytes): seq<bytes> {
    var fname := Trim(name);
    if fname == "" then []
    else if '/' in fname then [ToLower(Base(fname)), ToLower(fname)]
    else [ToLower(Base(fname))]
  }

  function AddedKey(m: Refs, k: bytes, ref: MediaRef): Refs {
    if k == "" || k in m then m else m[k := ref]
  }

  function AddedKeys(m: Refs, keys: seq<bytes>, ref: MediaRef): Refs
    decreases |keys|
  {
    if keys == [] then m else AddedKeys(AddedKey(m, keys[0], ref), keys[1..], ref)
  }

  /** addFirst: keys that are already taken keep their reference. */
  function AddedFirst(m: Refs, fname: bytes, ref: MediaRef): Refs {
    AddedKeys(m, PictureKeys(fname), ref)
  }

  class FirstRefMap {
    var refs: Refs

    constructor ()
      ensures refs == map[]
    {
      refs := map[];
    }

    method AddFirst(fname: bytes, ref: MediaRef)
      modifies this
      ensures refs == AddedFirst(old(refs), fname, ref)
    {
      var keys := PictureKeys(fname);
      for i := 0 to |keys|
        invariant AddedKeys(refs, keys[i..], ref) == AddedFirst(old(refs), fname, ref)
      {
        assert keys[i..][1..] == keys[i + 1..];
        if keys[i] == "" || keys[i] in refs {
          continue;
        }
        refs := refs[keys[i] := ref];
      }
    }
  }

  function OrQuestion(s: bytes): bytes {
    if Trim(s) == "" then "?" else s
  }

  // ---------- Skipped parts ----------

  function SkipLongs(s: Src, n: nat): (r: Src)
    requires Ok(s)
    ensures Ok(r) && Fuel(r) <= Fuel(s)
    decreases n
  {
    if n == 0 then s else SkipLongs(ReadInt(s).s, n - 1)
  }

  function SkipBanRec2(s: Src): (r: Src)
    requires Ok(s)
    ensures Ok(r) && Fuel(r) <= Fuel(s)
  {
    var g := GetToken(s);
    if !g.ok then g.s
    else ReadString(ReadString(ReadString(SkipLongs(g.s, 12)).s).s).s
  }

  predicate IsCoordinate(tok: bytes) {
    tok != [] && (IsDigit(tok[0]) || (tok[0] == '-' && |tok| > 1 && IsDigit(tok[1])))
  }

  /** Coordinates and commas are skipped; the first other token is pushed back. */
  function SkipOutline(s: Src): (r: Src)
    requires Ok(s)
    ensures Ok(r) && Fuel(r) <= Fuel(s)
    decreases Fuel(s)
  {
    var g := GetToken(s);
    if !g.ok then g.s
    else if g.s.token == "" || IsCoordinate(g.s.token) || g.s.token == "," then SkipOutline(g.s)
    else Unget(g.s)
  }

  function SkipScript(s: Src): (r: Src)
    requires Ok(s)
    ensures Ok(r) && Fuel(r) <= Fuel(s)
    decreases Fuel(s)
  {
    var g := GetToken(s);
    if !g.ok || EqualFold(g.s.token, "ENDSCRIPT") then g.s else SkipScript(g.s)
  }

  function SkipProp(s: Src): (r: Src)
    requires Ok(s)
    ensures Ok(r) && Fuel(r) <= Fuel(s)
    decreases Fuel(s)
  {
    var g := GetToken(s);
    if !g.ok || WordOf(g.s.token) == EndProp then g.s else SkipProp(g.s)
  }

  // ---------- Pictures ----------

  /** The local variables of parsePicture. */
  datatype PictureVars = PictureVars(id: int16, fname: bytes)

  datatype PictureAt = PictureAt(v: PictureVars, s: Src)

  /** One directive of a picture, after its word was read. */
  function PictureStep(w: Word, s: Src, v: PictureVars): (r: PictureAt)
    requires Ok(s)
    ensures Ok(r.s) && Fuel(r.s) <= Fuel(s)
  {
    match w
    case Id =>
      var n := ReadInt(s);
      PictureAt(v.(id := ToInt16(n.v)), n.s)
    case Name =>
      var p := ReadString(s);
      PictureAt(if p.ok then v.(fname := p.v) else v, p.s)
    case TransColor => PictureAt(v, ReadInt(s).s)
    case _ => PictureAt(v, s)
  }

  datatype PictureEnd = PictureEnd(closed: bool, v: PictureVars, s: Src)

  function PictureLoop(s: Src, v: PictureVars): (r: PictureEnd)
    requires Ok(s)
    ensures Ok(r.s) && Fuel(r.s) <= Fuel(s)
    decreases Fuel(s)
  {
    var g := GetToken(s);
    if !g.ok then PictureEnd(false, v, g.s)
    else
      var w := WordOf(g.s.token);
      if w == EndPicture then PictureEnd(true, v, g.s)
      else
        var r := PictureStep(w, g.s, v);
        PictureLoop(r.s, r.v)
  }

  // ---------- Hotspots ----------

  /** The token after a picture id of a PICTS list: a comma eats one more token, any other token is
      pushed back. */
  function AfterPictId(g: Src): (r: Src)
    requires Ok(g) && !g.ungot
    ensures Ok(r) && Fuel(r) <= Fuel(g) + 1
  {
    if g.token == "," then GetToken(g).s else Unget(g)
  }

  datatype PictsEnd = PictsEnd(ids: seq<int16>, s: Src)

  function PictsLoop(s: Src, ids: seq<int16>): (r: PictsEnd)
    requires Ok(s)
    ensures Ok(r.s) && Fuel(r.s) <= Fuel(s)
    decreases Fuel(s)
  {
    var g := GetToken(s);
    if !g.ok then PictsEnd(ids, g.s)
    else if WordOf(g.s.token) in {EndPicts, EndPictIds} then PictsEnd(ids, g.s)
    else
      var a := Atoi(g.s.token);
      if !a.ok || a.v < -32768 || a.v > 32767 then PictsLoop(g.s, ids)
      else
        var g2 := GetToken(g.s);
        if !g2.ok then PictsEnd(ids, g2.s)
        else PictsLoop(ReadPoint(AfterPictId(g2.s)).s, ids + [a.v])
  }

  /** The local variables of parseHotspot. */
  datatype SpotVars = SpotVars(id: int16, name: bytes, ids: seq<int16>)

  datatype SpotAt = SpotAt(v: SpotVars, s: Src)

  /** One directive of a hotspot, after its word was read. */
  function SpotStep(w: Word, s: Src, v: SpotVars): (r: SpotAt)
    requires Ok(s)
    ensures Ok(r.s) && Fuel(r.s) <= Fuel(s)
  {
    match w
    case Name =>
      var p := ReadString(s);
      SpotAt(if p.ok then v.(name := p.v) else v, p.s)
    case Id =>
      var n := ReadInt(s);
      SpotAt(v.(id := ToInt16(n.v)), n.s)
    case Pict =>
      var n := ReadInt(s);
      SpotAt(v.(ids := v.ids + [ToInt16(n.v)]), n.s)
    case PictId =>
      var n := ReadInt(s);
      SpotAt(v.(ids := v.ids + [ToInt16(n.v)]), n.s)
    case Picts =>
      var p := PictsLoop(s, v.ids);
      SpotAt(v.(ids := p.ids), p.s)
    case PictIds =>
      var p := PictsLoop(s, v.ids);
      SpotAt(v.(ids := p.ids), p.s)
    case Dest => SpotAt(v, ReadInt(s).s)
    case Door => SpotAt(v, ReadInt(s).s)
    case Loc => SpotAt(v, ReadPoint(s).s)
    case Script => SpotAt(v, SkipScript(s))
    case Outline => SpotAt(v, SkipOutline(s))
    case _ => SpotAt(v, s)
  }

  predicate ClosesSpot(w: Word) {
    w.EndDoor? || w.EndBolt? || w.EndSpot? || w.EndHotSpot?
  }

  datatype SpotEnd = SpotEnd(closed: bool, v: SpotVars, s: Src)

  function SpotLoop(s: Src, v: SpotVars): (r: SpotEnd)
    requires Ok(s)
    ensures Ok(r.s) && Fuel(r.s) <= Fuel(s)
    decreases Fuel(s)
  {
    var g := GetToken(s);
    if !g.ok then SpotEnd(false, v, g.s)
    else
      var w := WordOf(g.s.token);
      if ClosesSpot(w) then SpotEnd(true, v, g.s)
      else
        var r := SpotStep(w, g.s, v);
        SpotLoop(r.s, r.v)
  }

  // ---------- Rooms ----------

  /** The local variables of parseRoom. */
  datatype RoomVars = RoomVars(id: int, name: bytes, pics: map<int16, bytes>, picOrdinal: int, hotOrdinal: int)

  const NEW_ROOM: RoomVars := RoomVars(0, "", map[], 0, 0)

  function BackgroundOf(v: RoomVars): MediaRef {
    MediaRef(OrQuestion(v.name), v.id, "", 0, BackgroundRef)
  }

  function PictureOf(v: RoomVars, id: int16): MediaRef {
    MediaRef(OrQuestion(v.name), v.id, "Picture layer", id, PictureRef)
  }

  function SpotOf(v: RoomVars, spot: SpotVars): MediaRef {
    MediaRef(OrQuestion(v.name), v.id, OrQuestion(spot.name), spot.id, SpotRef)
  }

  /** The variables after a closed picture. */
  function WithPicture(v: RoomVars, p: PictureVars): RoomVars {
    var w := v.(picOrdinal := v.picOrdinal + 1);
    if p.fname != "" then w.(pics := w.pics[p.id := p.fname]) else w
  }

  function AddedPicture(m: Refs, v: RoomVars, p: PictureVars): Refs {
    if p.fname != "" then AddedFirst(m, p.fname, PictureOf(v, p.id)) else m
  }

  /** The file a picture id stands for by now; "" when there is none. */
  function FileOf(v: RoomVars, id: int16): bytes {
    if id in v.pics then v.pics[id] else ""
  }

  /** The references of a closed hotspot, one for each of its pictures that is known by now. */
  function AddedSpot(m: Refs, v: RoomVars, spot: SpotVars, ids: seq<int16>): Refs
    decreases |ids|
  {
    if ids == [] then m
    else
      var fn := FileOf(v, ids[0]);
      AddedSpot(if fn == "" then m else AddedFirst(m, fn, SpotOf(v, spot)), v, spot, ids[1..])
  }

  datatype RoomEnd = RoomEnd(s: Src, refs: Refs)

  predicate OpensSpot(w: Word) {
    w.Door? || w.Bolt? || w.NavArea? || w.HotSpot? || w.Spot?
  }

  datatype RoomAt = RoomAt(v: RoomVars, refs: Refs, s: Src)

  /** A picture that never closes leaves the room's variables alone. */
  function AfterPicture(p: PictureEnd, v: RoomVars, refs: Refs): (r: RoomAt)
    ensures r.s == p.s
  {
    if p.closed then RoomAt(WithPicture(v, p.v), AddedPicture(refs, v, p.v), p.s) else RoomAt(v, refs, p.s)
  }

  function AfterSpot(p: SpotEnd, v: RoomVars, refs: Refs): (r: RoomAt)
    ensures r.s == p.s
  {
    if p.closed then RoomAt(v.(hotOrdinal := v.hotOrdinal + 1), AddedSpot(refs, v, p.v, p.v.ids), p.s)
    else RoomAt(v, refs, p.s)
  }

  /** A word that opens a block, or one the room does not know. */
  function BlockStep(w: Word, s: Src, v: RoomVars, refs: Refs): (r: RoomAt)
    requires Ok(s)
    ensures Ok(r.s) && Fuel(r.s) <= Fuel(s)
  {
    if w == Picture then AfterPicture(PictureLoop(s, PictureVars(ToInt16(v.picOrdinal + 1), "")), v, refs)
    else if OpensSpot(w) then AfterSpot(SpotLoop(s, SpotVars(ToInt16(v.hotOrdinal + 1), "", [])), v, refs)
    else if w == Prop then RoomAt(v, refs, SkipProp(s))
    else RoomAt(v, refs, s)
  }

  /** One directive of a room, after its word was read. */
  function RoomStep(w: Word, s: Src, v: RoomVars, refs: Refs): (r: RoomAt)
    requires Ok(s)
    ensures Ok(r.s) && Fuel(r.s) <= Fuel(s)
  {
    if w == Id then
      var n := ReadInt(s);
      RoomAt(v.(id := n.v), refs, n.s)
    else if w == Name then
      var p := ReadString(s);
      RoomAt(if p.ok then v.(name := p.v) else v, refs, p.s)
    else if w == MaxMembers || w == MaxGuests || w == Faces then RoomAt(v, refs, ReadInt(s).s)
    else if w == Artist || w == Locked then RoomAt(v, refs, ReadString(s).s)
    else if w == Pict then
      var p := ReadString(s);
      RoomAt(v, if p.ok && p.v != "" then AddedFirst(refs, p.v, BackgroundOf(v)) else refs, p.s)
    else BlockStep(w, s, v, refs)
  }

  lemma PictureBlockStep(s: Src, v: RoomVars, refs: Refs)
    requires Ok(s)
    ensures BlockStep(Picture, s, v, refs) ==
            AfterPicture(PictureLoop(s, PictureVars(ToInt16(v.picOrdinal + 1), "")), v, refs)
  {
    hide PictureLoop, SpotLoop, AfterPicture, AfterSpot, SkipProp;
  }

  lemma SpotBlockStep(w: Word, s: Src, v: RoomVars, refs: Refs)
    requires Ok(s) && OpensSpot(w)
    ensures BlockStep(w, s, v, refs) == AfterSpot(SpotLoop(s, SpotVars(ToInt16(v.hotOrdinal + 1), "", [])), v, refs)
  {
    hide PictureLoop, SpotLoop, AfterPicture, AfterSpot, SkipProp;
  }

  lemma PictureRoomStep(s: Src, v: RoomVars, refs: Refs)
    requires Ok(s)
    ensures RoomStep(Picture, s, v, refs) ==
            AfterPicture(PictureLoop(s, PictureVars(ToInt16(v.picOrdinal + 1), "")), v, refs)
  {
    hide BlockStep, ReadInt, ReadString, PictureLoop, SpotLoop, AfterPicture, AfterSpot;
    assert RoomStep(Picture, s, v, refs) == BlockStep(Picture, s, v, refs);
    PictureBlockStep(s, v, refs);
  }

  lemma SpotRoomStep(w: Word, s: Src, v: RoomVars, refs: Refs)
    requires Ok(s) && OpensSpot(w)
    ensures RoomStep(w, s, v, refs) == AfterSpot(SpotLoop(s, SpotVars(ToInt16(v.hotOrdinal + 1), "", [])), v, refs)
  {
    hide BlockStep, ReadInt, ReadString, PictureLoop, SpotLoop, AfterPicture, AfterSpot;
    assert RoomStep(w, s, v, refs) == BlockStep(w, s, v, refs);
    SpotBlockStep(w, s, v, refs);
  }

  function RoomLoop(s: Src, v: RoomVars, refs: Refs): (r: RoomEnd)
    requires Ok(s)
    ensures Ok(r.s) && Fuel(r.s) <= Fuel(s)
    decreases Fuel(s)
  {
    var g := GetToken(s);
    if !g.ok then RoomEnd(g.s, refs)
    else
      var w := WordOf(g.s.token);
      if w == EndRoom then RoomEnd(g.s, refs)
      else
        var r := RoomStep(w, g.s, v, refs);
        RoomLoop(r.s, r.v, r.refs)
  }

  // ---------- The whole text ----------

  function TopLoop(s: Src, refs: Refs): Refs
    requires Ok(s)
    decreases Fuel(s)
  {
    var g := GetToken(s);
    if !g.ok then refs
    else
      match WordOf(g.s.token)
      case Room =>
        var r := RoomLoop(g.s, NEW_ROOM, refs);
        TopLoop(r.s, r.refs)
      case Entrance => TopLoop(ReadInt(g.s).s, refs)
      case BanRec => TopLoop(SkipLongs(g.s, 3), refs)
      case BanRec2 => TopLoop(SkipBanRec2(g.s), refs)
      case End => refs
      case _ => TopLoop(g.s, refs)
  }

  /** What ParsePatFirstRefs returns. */
  function FirstRefs(pat: bytes): Refs {
    TopLoop(Src(pat + [NUL], "", false), map[])
  }
}
