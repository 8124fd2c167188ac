/** The words the PAT parser switches on (internal/patparse/refs.go). Flag words, which it
    accepts without doing anything, count as other words here. */
module PatWords {
  import opened Bytes
  import opened WordMarks

  datatype Word =
    | Room | Entrance | BanRec | BanRec2 | End | EndRoom
    | Id | Name | MaxMembers | MaxGuests | Faces | Artist
    | Locked | Pict | Picture | Door | Bolt | NavArea
    | HotSpot | Spot | Prop | EndPicture | TransColor | EndDoor
    | EndBolt | EndSpot | EndHotSpot | PictId | Picts | PictIds
    | EndPicts | EndPictIds | Dest | Loc | Script | Outline
    | EndProp
    | Other

  function Spelling(w: Word): seq<wordChar> {
    match w
    case Room => "ROOM"
    case Entrance => "ENTRANCE"
    case BanRec => "BANREC"
    case BanRec2 => "BANREC2"
    case End => "END"
    case EndRoom => "ENDROOM"
    case Id => "ID"
    case Name => "NAME"
    case MaxMembers => "MAXMEMBERS"
    case MaxGuests => "MAXGUESTS"
    case Faces => "FACES"
    case Artist => "ARTIST"
    case Locked => "LOCKED"
    case Pict => "PICT"
    case Picture => "PICTURE"
    case Door => "DOOR"
    case Bolt => "BOLT"
    case NavArea => "NAVAREA"
    case HotSpot => "HOTSPOT"
    case Spot => "SPOT"
    case Prop => "PROP"
    case EndPicture => "ENDPICTURE"
    case TransColor => "TRANSCOLOR"
    case EndDoor => "ENDDOOR"
    case EndBolt => "ENDBOLT"
    case EndSpot => "ENDSPOT"
    case EndHotSpot => "ENDHOTSPOT"
    case PictId => "PICTID"
    case Picts => "PICTS"
    case PictIds => "PICTIDS"
    case EndPicts => "ENDPICTS"
    case EndPictIds => "ENDPICTIDS"
    case Dest => "DEST"
    case Loc => "LOC"
    case Script => "SCRIPT"
    case Outline => "OUTLINE"
    case EndProp => "ENDPROP"
    case Other => ""
  }

  function Lookup(u: bytes): Word {
    if u == Spelling(Room) then Room
    else if u == Spelling(Entrance) then Entrance
    else if u == Spelling(BanRec) then BanRec
    else if u == Spelling(BanRec2) then BanRec2
    else if u == Spelling(End) then End
    else if u == Spelling(EndRoom) then EndRoom
    else if u == Spelling(Id) then Id
    else if u == Spelling(Name) then Name
    else if u == Spelling(MaxMembers) then MaxMembers
    else if u == Spelling(MaxGuests) then MaxGuests
    else if u == Spelling(Faces) then Faces
    else if u == Spelling(Artist) then Artist
    else if u == Spelling(Locked) then Locked
    else if u == Spelling(Pict) then Pict
    else if u == Spelling(Picture) then Picture
    else if u == Spelling(Door) then Door
    else if u == Spelling(Bolt) then Bolt
    else if u == Spelling(NavArea) then NavArea
    else if u == Spelling(HotSpot) then HotSpot
    else if u == Spelling(Spot) then Spot
    else if u == Spelling(Prop) then Prop
    else if u == Spelling(EndPicture) then EndPicture
    else if u == Spelling(TransColor) then TransColor
    else if u == Spelling(EndDoor) then EndDoor
    else if u == Spelling(EndBolt) then EndBolt
    else if u == Spelling(EndSpot) then EndSpot
    else if u == Spelling(EndHotSpot) then EndHotSpot
    else if u == Spelling(PictId) then PictId
    else if u == Spelling(Picts) then Picts
    else if u == Spelling(PictIds) then PictIds
    else if u == Spelling(EndPicts) then EndPicts
    else if u == Spelling(EndPictIds) then EndPictIds
    else if u == Spelling(Dest) then Dest
    else if u == Spelling(Loc) then Loc
    else if u == Spelling(Script) then Script
    else if u == Spelling(Outline) then Outline
    else if u == Spelling(EndProp) then EndProp
    else Other
  }

  /** up in the source: trimmed and upper-cased. */
  function Up(tok: bytes): bytes {
    ToUpper(Trim(tok))
  }

  function WordOf(tok: bytes): Word {
    Lookup(Up(tok))
  }

  // ---------- The words are pairwise different ----------

  function WordMark(w: Word): Mark {
    match w
    case Room => Mark(4, 'R', 'O', 'M')
    case Entrance => Mark(8, 'E', 'A', 'E')
    case BanRec => Mark(6, 'B', 'R', 'C')
    case BanRec2 => Mark(7, 'B', 'R', '2')
    case End => Mark(3, 'E', 'N', 'D')
    case EndRoom => Mark(7, 'E', 'R', 'M')
    case Id => Mark(2, 'I', 'D', 'D')
    case Name => Mark(4, 'N', 'M', 'E')
    case MaxMembers => Mark(10, 'M', 'M', 'S')
    case MaxGuests => Mark(9, 'M', 'U', 'S')
    case Faces => Mark(5, 'F', 'C', 'S')
    case Artist => Mark(6, 'A', 'I', 'T')
    case Locked => Mark(6, 'L', 'K', 'D')
    case Pict => Mark(4, 'P', 'C', 'T')
    case Picture => Mark(7, 'P', 'T', 'E')
    case Door => Mark(4, 'D', 'O', 'R')
    case Bolt => Mark(4, 'B', 'L', 'T')
    case NavArea => Mark(7, 'N', 'A', 'A')
    case HotSpot => Mark(7, 'H', 'S', 'T')
    case Spot => Mark(4, 'S', 'O', 'T')
    case Prop => Mark(4, 'P', 'O', 'P')
    case EndPicture => Mark(10, 'E', 'C', 'E')
    case TransColor => Mark(10, 'T', 'C', 'R')
    case EndDoor => Mark(7, 'E', 'D', 'R')
    case EndBolt => Mark(7, 'E', 'B', 'T')
    case EndSpot => Mark(7, 'E', 'S', 'T')
    case EndHotSpot => Mark(10, 'E', 'T', 'T')
    case PictId => Mark(6, 'P', 'T', 'D')
    case Picts => Mark(5, 'P', 'C', 'S')
    case PictIds => Mark(7, 'P', 'T', 'S')
    case EndPicts => Mark(8, 'E', 'I', 'S')
    case EndPictIds => Mark(10, 'E', 'C', 'S')
    case Dest => Mark(4, 'D', 'S', 'T')
    case Loc => Mark(3, 'L', 'O', 'C')
    case Script => Mark(6, 'S', 'I', 'T')
    case Outline => Mark(7, 'O', 'L', 'E')
    case EndProp => Mark(7, 'E', 'P', 'P')
    case Other => Mark(0, ' ', ' ', ' ')
  }

  lemma WordHasMark(w: Word)
    requires w != Other
    ensures Spelling(w) != [] && MarkOf(Spelling(w)) == WordMark(w)
  {
    hide Spelling, WordMark;
    if WordMark(w).len < 6 {
      ShortWordHasMark(w);
    } else {
      LongWordHasMark(w);
    }
  }

  lemma ShortWordHasMark(w: Word)
    requires w != Other && WordMark(w).len < 6
    ensures Spelling(w) != [] && MarkOf(Spelling(w)) == WordMark(w)
  {
  }

  lemma LongWordHasMark(w: Word)
    requires 6 <= WordMark(w).len
    ensures Spelling(w) != [] && MarkOf(Spelling(w)) == WordMark(w)
  {
  }

  /** The only word with a given mark. */
  function FromMark(m: Mark): Word {
    if m.len == 2 then Id
    else if m.len == 3 then (if m.first == 'E' then End
      else Loc)
    else if m.len == 4 then (if m.first == 'B' then Bolt
      else if m.first == 'D' then (if m.last == 'R' then Door
        else Dest)
      else if m.first == 'N' then Name
      else if m.first == 'P' then (if m.last == 'P' then Prop
        else Pict)
      else if m.first == 'R' then Room
      else Spot)
    else if m.len == 5 then (if m.first == 'F' then Faces
      else Picts)
    else if m.len == 6 then (if m.first == 'A' then Artist
      else if m.first == 'B' then BanRec
      else if m.first == 'L' then Locked
      else if m.first == 'P' then PictId
      else Script)
    else if m.len == 7 then (if m.first == 'B' then BanRec2
      else if m.first == 'E' then (if m.last == 'M' then EndRoom
        else if m.last == 'P' then EndProp
        else if m.last == 'R' then EndDoor
        else (if m.middle == 'B' then EndBolt
          else EndSpot))
      else if m.first == 'H' then HotSpot
      else if m.first == 'N' then NavArea
      else if m.first == 'O' then Outline
      else (if m.last == 'E' then Picture
        else PictIds))
    else if m.len == 8 then (if m.last == 'E' then Entrance
      else EndPicts)
    else if m.len == 9 then MaxGuests
    else if m.len == 10 then (if m.first == 'E' then (if m.last == 'E' then EndPicture
        else if m.last == 'S' then EndPictIds
        else EndHotSpot)
      else if m.first == 'M' then MaxMembers
      else TransColor)
    else Other
  }

  lemma MarkTellsWord(w: Word)
    ensures FromMark(WordMark(w)) == w
  {
  }

  lemma MarksDiffer(w: Word, v: Word)
    requires WordMark(w) == WordMark(v)
    ensures w == v
  {
    hide FromMark, WordMark;
    MarkTellsWord(w);
    MarkTellsWord(v);
  }

  lemma FoundIsSpelled(u: bytes)
    ensures Lookup(u) == Other || u == Spelling(Lookup(u))
  {
    hide Spelling;
  }

  lemma SpelledIsFound(w: Word)
    requires w != Other
    ensures Lookup(Spelling(w)) != Other
  {
    hide Spelling;
  }

  /** Every word is found as itself. */
  lemma SpellingIsItself(w: Word)
    requires w != Other
    ensures Lookup(Spelling(w)) == w
  {
    hide Spelling, Lookup, WordMark;
    var v := Lookup(Spelling(w));
    FoundIsSpelled(Spelling(w));
    SpelledIsFound(w);
    WordHasMark(w);
    WordHasMark(v);
    MarksDiffer(w, v);
  }

  /** A spelled word is read back as that word; it is trimmed and upper case already. */
  lemma ReadsItself(w: Word)
    requires w != Other
    ensures WordOf(Spelling(w)) == w && Spelling(w) != ""
  {
    hide Spelling, Lookup, Trim;
    WordHasMark(w);
    TrimFixed(Spelling(w));
    assert ToUpper(Spelling(w)) == Spelling(w);
    SpellingIsItself(w);
  }

  /** Text that does not start with a letter is no word. */
  lemma NoLetterNoWord(tok: bytes)
    requires tok != [] && Trimmed(tok) && !('A' <= Upper(tok[0]) <= 'Z')
    ensures WordOf(tok) == Other
  {
    hide Spelling, Lookup, Trim;
    TrimFixed(tok);
    var u := Up(tok);
    assert u[0] == Upper(tok[0]);
    FoundIsSpelled(u);
    if Lookup(u) != Other {
      WordHasMark(Lookup(u));
      MarkStart(Lookup(u));
    }
  }

  lemma MarkStart(w: Word)
    requires w != Other
    ensures 'A' <= WordMark(w).first <= 'Z'
  {
  }
}
