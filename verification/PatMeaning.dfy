/** What a .pat file says: rooms of pictures and hotspots, how they are spelled, and the
    media references they make, told without a tokenizer. */
module PatMeaning {
  import opened Wrappers
  import opened Bytes
  import opened Numbers
  import opened PatScanner
  import opened PatWords
  import opened PatRefs
  import opened PatLayout

  // ---------- Rooms ----------

  datatype PictureItem =
    | PictureId(n: int64)
    | PictureName(name: bytes)
    | PictureColor(n: int64)
    | PictureFlag(text: bytes)

  /** One entry of a PICTS list: a picture id and its point, with or without a comma between the two. */
  datatype PictsEntry = PictsEntry(id: int16, comma: bool, at: Point)

  datatype SpotItem =
    | SpotId(n: int64)
    | SpotName(name: bytes)
    | SpotPict(word: Word, n: int64)
    | SpotPicts(open: Word, entries: seq<PictsEntry>, close: Word)
    | SpotTarget(word: Word, n: int64)
    | SpotLoc(at: Point)
    | SpotOutline(points: seq<Point>)
    | SpotScript(body: seq<Atom>)
    | SpotFlag(text: bytes)

  datatype RoomItem =
    | RoomId(n: int64)
    | RoomName(name: bytes)
    | Background(file: bytes)
    | RoomNumber(word: Word, n: int64)
    | RoomText(word: Word, s: bytes)
    | RoomPicture(picture: seq<PictureItem>)
    | RoomSpot(open: Word, spot: seq<SpotItem>, close: Word)
    | RoomProp(body: seq<Atom>)
    | RoomFlag(text: bytes)

  datatype TopItem =
    | RoomBlock(room: seq<RoomItem>)
    | EntranceId(n: int64)
    | Ban(a: int64, b: int64, c: int64)
    | Ban2(head: Atom, numbers: seq<int64>, texts: seq<bytes>)
    | TopFlag(text: bytes)

  // ---------- PICTS lists the parser keeps in step with ----------

  /** A number the loop over a PICTS list can take for a picture id. */
  function IdLike(n: int64): Option<int16> {
    if -0x8000 <= n <= 0x7FFF then Some(n) else None
  }

  /** Which number of an entry the loop takes for its id when the entry's own id was taken for a coordinate. */
  function TakenFor(e: PictsEntry): Option<int16> {
    match e.at
    case One(h) => if e.comma then None else IdLike(h)
    case Two(h, v) => if !e.comma && IdLike(h).Some? then IdLike(h) else IdLike(v)
  }

  /** The parser skips a token after a comma that follows an id, although the point starts there: it falls out
      of step. It goes unnoticed only when the second coordinate cannot be an id, or when it is the next entry's
      id, which the parser then passes over, and so on until nothing is taken for an id. */
  predicate InStep(entries: seq<PictsEntry>)
    decreases |entries|, 1
  {
    || entries == []
    || (if !entries[0].comma then InStep(entries[1..])
        else entries[0].at.Two? && Relayed(IdLike(entries[0].at.v), entries[1..]))
  }

  predicate Relayed(taken: Option<int16>, entries: seq<PictsEntry>)
    decreases |entries|, 2
  {
    if taken.None? then InStep(entries)
    else entries != [] && entries[0].id == taken.value && Relayed(TakenFor(entries[0]), entries[1..])
  }

  // ---------- Which of them the format has ----------

  predicate FlagOk(text: bytes) {
    AtomOk(Bare(text)) && WordOf(text) == Other
  }

  predicate PictureItemOk(item: PictureItem) {
    item.PictureFlag? ==> FlagOk(item.text)
  }

  predicate PictureOk(picture: seq<PictureItem>) {
    forall i :: 0 <= i < |picture| ==> PictureItemOk(picture[i])
  }

  predicate ScriptAtomOk(a: Atom) {
    AtomOk(a) && !EqualFold(TokenOf(a), "ENDSCRIPT")
  }

  predicate PropAtomOk(a: Atom) {
    AtomOk(a) && WordOf(TokenOf(a)) != EndProp
  }

  predicate SpotItemOk(item: SpotItem) {
    match item
    case SpotPict(word, n) => word.Pict? || word.PictId?
    case SpotPicts(open, entries, close) =>
      && (open.Picts? || open.PictIds?) && (close.EndPicts? || close.EndPictIds?)
      && InStep(entries)
    case SpotTarget(word, n) => word.Dest? || word.Door?
    case SpotScript(body) => forall i :: 0 <= i < |body| ==> ScriptAtomOk(body[i])
    case SpotFlag(text) => FlagOk(text)
    case _ => true
  }

  predicate SpotOk(spot: seq<SpotItem>) {
    forall i :: 0 <= i < |spot| ==> SpotItemOk(spot[i])
  }

  predicate RoomItemOk(item: RoomItem) {
    match item
    case RoomNumber(word, n) => word.MaxMembers? || word.MaxGuests? || word.Faces?
    case RoomText(word, s) => word.Artist? || word.Locked?
    case RoomPicture(picture) => PictureOk(picture)
    case RoomSpot(open, spot, close) =>
      && (open.Door? || open.Bolt? || open.NavArea? || open.HotSpot? || open.Spot?)
      && SpotOk(spot)
      && (close.EndDoor? || close.EndBolt? || close.EndSpot? || close.EndHotSpot?)
    case RoomProp(body) => forall i :: 0 <= i < |body| ==> PropAtomOk(body[i])
    case RoomFlag(text) => FlagOk(text)
    case _ => true
  }

  predicate RoomOk(room: seq<RoomItem>) {
    forall i :: 0 <= i < |room| ==> RoomItemOk(room[i])
  }

  predicate TopItemOk(item: TopItem) {
    match item
    case RoomBlock(room) => RoomOk(room)
    case Ban2(head, numbers, texts) => AtomOk(head) && |numbers| == 12 && |texts| == 3
    case TopFlag(text) => FlagOk(text)
    case _ => true
  }

  predicate FileOk(file: seq<TopItem>) {
    forall i :: 0 <= i < |file| ==> TopItemOk(file[i])
  }

  // ---------- Spelling ----------

  /** A word, in upper or lower case. */
  function WordPart(w: Word): Part {
    Caseless(Spelling(w))
  }

  function Exactly(body: seq<Atom>): (r: seq<Part>)
    ensures |r| == |body|
  {
    seq(|body|, i requires 0 <= i < |body| => Just(body[i]))
  }

  function PictureItemParts(item: PictureItem): seq<Part> {
    match item
    case PictureId(n) => [WordPart(Id), Integer(n)]
    case PictureName(name) => [WordPart(Name), Label(name)]
    case PictureColor(n) => [WordPart(TransColor), Integer(n)]
    case PictureFlag(text) => [Caseless(text)]
  }

  function PictureParts(picture: seq<PictureItem>): (r: seq<Part>)
    ensures r != []
  {
    if picture == [] then [WordPart(EndPicture)] else PictureItemParts(picture[0]) + PictureParts(picture[1..])
  }

  function EntryParts(e: PictsEntry): seq<Part> {
    [Num(e.id)] + ((if e.comma then [Just(Comma)] else []) + PointParts(e.at))
  }

  function PictsParts(entries: seq<PictsEntry>, close: Word): (r: seq<Part>)
    ensures r != []
  {
    if entries == [] then [WordPart(close)] else EntryParts(entries[0]) + PictsParts(entries[1..], close)
  }

  function OutlineParts(points: seq<Point>): seq<Part> {
    if points == [] then [] else PointParts(points[0]) + OutlineParts(points[1..])
  }

  function SpotItemParts(item: SpotItem): seq<Part> {
    match item
    case SpotId(n) => [WordPart(Id), Integer(n)]
    case SpotName(name) => [WordPart(Name), Label(name)]
    case SpotPict(word, n) => [WordPart(word), Integer(n)]
    case SpotPicts(open, entries, close) => [WordPart(open)] + PictsParts(entries, close)
    case SpotTarget(word, n) => [WordPart(word), Integer(n)]
    case SpotLoc(at) => [WordPart(Loc)] + PointParts(at)
    case SpotOutline(points) => [WordPart(Outline)] + OutlineParts(points)
    case SpotScript(body) => [WordPart(Script)] + (Exactly(body) + [Caseless("ENDSCRIPT")])
    case SpotFlag(text) => [Caseless(text)]
  }

  function SpotParts(spot: seq<SpotItem>, close: Word): (r: seq<Part>)
    ensures r != []
  {
    if spot == [] then [WordPart(close)] else SpotItemParts(spot[0]) + SpotParts(spot[1..], close)
  }

  function RoomItemParts(item: RoomItem): seq<Part> {
    match item
    case RoomId(n) => [WordPart(Id), Integer(n)]
    case RoomName(name) => [WordPart(Name), Label(name)]
    case Background(file) => [WordPart(Pict), Label(file)]
    case RoomNumber(word, n) => [WordPart(word), Integer(n)]
    case RoomText(word, s) => [WordPart(word), Label(s)]
    case RoomPicture(picture) => [WordPart(Picture)] + PictureParts(picture)
    case RoomSpot(open, spot, close) => [WordPart(open)] + SpotParts(spot, close)
    case RoomProp(body) => [WordPart(Prop)] + (Exactly(body) + [WordPart(EndProp)])
    case RoomFlag(text) => [Caseless(text)]
  }

  function RoomParts(room: seq<RoomItem>): (r: seq<Part>)
    ensures r != []
  {
    if room == [] then [WordPart(EndRoom)] else RoomItemParts(room[0]) + RoomParts(room[1..])
  }

  function Integers(ns: seq<int64>): (r: seq<Part>)
    ensures |r| == |ns|
  {
    seq(|ns|, i requires 0 <= i < |ns| => Integer(ns[i]))
  }

  function Labels(texts: seq<bytes>): (r: seq<Part>)
    ensures |r| == |texts|
  {
    seq(|texts|, i requires 0 <= i < |texts| => Label(texts[i]))
  }

  function TopItemParts(item: TopItem): seq<Part> {
    match item
    case RoomBlock(room) => [WordPart(Room)] + RoomParts(room)
    case EntranceId(n) => [WordPart(Entrance), Integer(n)]
    case Ban(a, b, c) => [WordPart(BanRec), Integer(a), Integer(b), Integer(c)]
    case Ban2(head, numbers, texts) => [WordPart(BanRec2), Just(head)] + (Integers(numbers) + Labels(texts))
    case TopFlag(text) => [Caseless(text)]
  }

  function FileParts(file: seq<TopItem>): (r: seq<Part>)
    ensures r != []
  {
    if file == [] then [WordPart(End)] else TopItemParts(file[0]) + FileParts(file[1..])
  }

  // ---------- References ----------

  /** A file and the place that names it. */
  datatype Event = Event(file: bytes, ref: MediaRef)

  /** The name a reference shows: a blank one shows as a question mark. */
  function Title(name: bytes): bytes {
    if AllSpace(name) then "?" else name
  }

  function PictureSaid(item: PictureItem, v: PictureVars): PictureVars {
    match item
    case PictureId(n) => v.(id := ToInt16(n))
    case PictureName(name) => v.(fname := Cut(name))
    case _ => v
  }

  function PictureSays(picture: seq<PictureItem>, v: PictureVars): PictureVars
    decreases |picture|
  {
    if picture == [] then v else PictureSays(picture[1..], PictureSaid(picture[0], v))
  }

  function EntryIds(entries: seq<PictsEntry>): seq<int16> {
    seq(|entries|, i requires 0 <= i < |entries| => entries[i].id)
  }

  function SpotSaid(item: SpotItem, v: SpotVars): SpotVars {
    match item
    case SpotId(n) => v.(id := ToInt16(n))
    case SpotName(name) => v.(name := Cut(name))
    case SpotPict(_, n) => v.(ids := v.ids + [ToInt16(n)])
    case SpotPicts(_, entries, _) => v.(ids := v.ids + EntryIds(entries))
    case _ => v
  }

  function SpotSays(spot: seq<SpotItem>, v: SpotVars): SpotVars
    decreases |spot|
  {
    if spot == [] then v else SpotSays(spot[1..], SpotSaid(spot[0], v))
  }

  /** The picture a PICTURE block describes: its ordinal is its id unless it says otherwise. */
  function PictureIn(v: RoomVars, picture: seq<PictureItem>): PictureVars {
    PictureSays(picture, PictureVars(ToInt16(v.picOrdinal + 1), ""))
  }

  function SpotIn(v: RoomVars, spot: seq<SpotItem>): SpotVars {
    SpotSays(spot, SpotVars(ToInt16(v.hotOrdinal + 1), "", []))
  }

  /** A hotspot names the file of each of its pictures that has one by now. */
  function SpotEvents(v: RoomVars, spot: SpotVars, ids: seq<int16>): seq<Event>
    decreases |ids|
  {
    if ids == [] then []
    else
      var fn := if ids[0] in v.pics then v.pics[ids[0]] else "";
      var ref := MediaRef(Title(v.name), v.id, Title(spot.name), spot.id, SpotRef);
      (if fn == "" then [] else [Event(fn, ref)]) + SpotEvents(v, spot, ids[1..])
  }

  /** The references one item of a room makes, given what the items before it said. */
  function ItemEvents(item: RoomItem, v: RoomVars): seq<Event> {
    match item
    case Background(file) => if Cut(file) == "" then [] else [Event(Cut(file), MediaRef(Title(v.name), v.id, "", 0, BackgroundRef))]
    case RoomPicture(picture) =>
      var p := PictureIn(v, picture);
      var ref := MediaRef(Title(v.name), v.id, "Picture layer", p.id, PictureRef);
      if p.fname == "" then [] else [Event(p.fname, ref)]
    case RoomSpot(_, spot, _) => SpotEvents(v, SpotIn(v, spot), SpotIn(v, spot).ids)
    case _ => []
  }

  function ItemSaid(item: RoomItem, v: RoomVars): RoomVars {
    match item
    case RoomId(n) => v.(id := n)
    case RoomName(name) => v.(name := Cut(name))
    case RoomPicture(picture) =>
      var p := PictureIn(v, picture);
      v.(picOrdinal := v.picOrdinal + 1, pics := if p.fname == "" then v.pics else v.pics[p.id := p.fname])
    case RoomSpot(_, _, _) => v.(hotOrdinal := v.hotOrdinal + 1)
    case _ => v
  }

  function RoomEvents(room: seq<RoomItem>, v: RoomVars): seq<Event>
    decreases |room|
  {
    if room == [] then [] else ItemEvents(room[0], v) + RoomEvents(room[1..], ItemSaid(room[0], v))
  }

  function FileEvents(file: seq<TopItem>): seq<Event> {
    if file == [] then []
    else (if file[0].RoomBlock? then RoomEvents(file[0].room, RoomVars(0, "", map[], 0, 0)) else []) + FileEvents(file[1..])
  }

  // ---------- First references ----------

  function Recorded(m: Refs, events: seq<Event>): Refs
    decreases |events|
  {
    if events == [] then m else Recorded(AddedFirst(m, events[0].file, events[0].ref), events[1..])
  }

  /** The keys an event can be found under. */
  predicate Names(e: Event, k: bytes) {
    k != "" && k in PictureKeys(e.file)
  }

  /** The first event with a key; the number of events when there is none. */
  function FirstNaming(events: seq<Event>, k: bytes): (n: nat)
    ensures n <= |events|
    ensures n < |events| ==> Names(events[n], k)
    ensures forall i :: 0 <= i < n ==> !Names(events[i], k)
  {
    if events == [] then 0
    else if Names(events[0], k) then 0
    else
      var n := FirstNaming(events[1..], k);
      assert forall i :: 1 <= i < n + 1 ==> events[i] == events[1..][i - 1];
      n + 1
  }

  lemma {:induction false} AddedKeysAt(m: Refs, keys: seq<bytes>, ref: MediaRef, k: bytes)
    ensures k in AddedKeys(m, keys, ref) <==> k in m || (k != "" && k in keys)
    ensures k in m ==> AddedKeys(m, keys, ref)[k] == m[k]
    ensures k !in m && k != "" && k in keys ==> AddedKeys(m, keys, ref)[k] == ref
    decreases |keys|
  {
    if keys != [] {
      assert keys == [keys[0]] + keys[1..];
      AddedKeysAt(AddedKey(m, keys[0], ref), keys[1..], ref, k);
    }
  }

  /** Recording keeps, for each key, what was there or else the first event that names the key. */
  lemma {:induction false} RecordedFirst(m: Refs, events: seq<Event>, k: bytes)
    ensures k in Recorded(m, events) <==> k in m || FirstNaming(events, k) < |events|
    ensures k in m ==> Recorded(m, events)[k] == m[k]
    ensures k !in m && FirstNaming(events, k) < |events| ==>
              Recorded(m, events)[k] == events[FirstNaming(events, k)].ref
    decreases |events|
  {
    hide PictureKeys, AddedKeys;
    if events != [] {
      AddedKeysAt(m, PictureKeys(events[0].file), events[0].ref, k);
      RecordedFirst(AddedFirst(m, events[0].file, events[0].ref), events[1..], k);
    }
  }

  lemma {:induction false} RecordedAppend(m: Refs, a: seq<Event>, b: seq<Event>)
    ensures Recorded(m, a + b) == Recorded(Recorded(m, a), b)
    decreases |a|
  {
    hide AddedFirst;
    if a == [] {
      assert a + b == b;
    } else {
      assert (a + b)[1..] == a[1..] + b;
      RecordedAppend(AddedFirst(m, a[0].file, a[0].ref), a[1..], b);
    }
  }
}
