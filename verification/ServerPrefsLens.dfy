/** The guided serverprefs editor as a lens over the top-level JSON object
    (internal/serverprefsform/map.go, preserve.go, dto.go). JSON text is left out: values are parsed. */
module ServerPrefsLens {
  import opened Wrappers
  import opened Bytes
  import opened Numbers

  // ---------- JSON values ----------

  // The names this code spells out, one constructor of Key each.

  predicate IsGuidedName(s: bytes) {
    || s == "website" || s == "yp_language" || s == "yp_category" || s == "yp_description"
    || s == "timeout_room_id" || s == "autopurgebanlist_days" || s == "unicode_names" || s == "unicode"
    || s == "alt_names" || s == "nolooseprops_non_ops" || s == "esp_enabled" || s == "room_annotations"
    || s == "wiz_authoring" || s == "wiz_authoring_annotation" || s == "notify_logon"
    || s == "notify_logoff" || s == "public_media" || s == "secure_props" || s == "media_manager_enabled"
    || s == "media_manager_rank" || s == "media_upload_config_rank" || s == "legacyclients"
    || s == "overflow_rooms" || s == "propfreeze_rooms" || s == "ratbots_allowed_rooms"
    || s == "floodkill_limits" || s == "sound_limit" || s == "password_security" || s == "version"
  }

  predicate IsPreservedName(s: bytes) {
    || s == "moderation_records" || s == "moderation_schema" || s == "promotion_passwords"
    || s == "promotion_password_schema" || s == "command_ranks" || s == "operator_hold" || s == "name_gag"
    || s == "bless_config" || s == "bless_config_schema" || s == "nickregistration" || s == "registernick"
    || s == "ratbot_avatar"
  }

  predicate IsFieldName(s: bytes) {
    || s == "enabled" || s == "time" || s == "move" || s == "chat" || s == "whisper" || s == "esp"
    || s == "page" || s == "prop" || s == "propdrop" || s == "draw" || s == "username" || s == "times"
    || s == "timeframe" || s == "min_length" || s == "require_number" || s == "require_symbol"
    || s == "require_upper" || s == "require_lower"
  }

  predicate IsSpelled(s: bytes) {
    IsGuidedName(s) || IsPreservedName(s) || IsFieldName(s)
  }

  lemma GuidedInLetters(s: bytes)
    requires IsGuidedName(s)
    ensures s != [] && 'a' <= s[0] <= 'z'
  {
  }

  lemma SpelledInLetters(s: bytes)
    requires IsSpelled(s)
    ensures s != [] && 'a' <= s[0] <= 'z'
  {
    hide IsGuidedName;
    if IsGuidedName(s) {
      GuidedInLetters(s);
    }
  }

  type OtherName = s: bytes | !IsSpelled(s) witness ""

  /** Object keys: the names this code spells out, one constructor each, and any other text. */
  datatype Key =
    | Website | YpLanguage | YpCategory | YpDescription | TimeoutRoomId | AutopurgeBanlistDays
    | UnicodeNames | Unicode | AltNames | NoLoosePropsNonOps | EspEnabled | RoomAnnotations
    | WizAuthoring | WizAuthoringAnnotation | NotifyLogon | NotifyLogoff | PublicMedia | SecureProps
    | MediaManagerEnabled | MediaManagerRank | MediaUploadConfigRank | LegacyClients | OverflowRooms
    | PropFreezeRooms | RatbotsAllowedRooms | FloodKillLimits | SoundLimitKey | PasswordSecurityKey
    | Version
    | ModerationRecords | ModerationSchema | PromotionPasswords | PromotionPasswordSchema | CommandRanks
    | OperatorHold | NameGag | BlessConfig | BlessConfigSchema | NickRegistration | RegisterNick | RatbotAvatar
    | Enabled | Time | Move | Chat | Whisper | Esp | Page | Prop | PropDrop | Draw | Username
    | Times | Timeframe | MinLength | RequireNumber | RequireSymbol | RequireUpper | RequireLower
    | Text(s: OtherName)

  datatype Json =
    | Null
    | Bool(b: bool)
    | Int(n: int)
    | Fraction
    | Str(s: bytes)
    | Arr(elements: seq<Json>)
    | Obj(fields: map<Key, Json>)

  type Top = map<Key, Json>

  /** The value under a key, or None when the key is absent. */
  function Slot(top: Top, k: Key): Option<Json> {
    if k in top then Some(top[k]) else None
  }

  function With(top: Top, k: Key, v: Option<Json>): Top {
    match v
    case None => top - {k}
    case Some(j) => top[k := j]
  }

  predicate IsInt64(n: int) {
    MIN_INT64 <= n <= MAX_INT64
  }

  /** The key of a room in a room object: its number. */
  function RoomName(n: int): (k: Key)
    ensures k.Text? && k.s == Dec(n)
  {
    DecIsOther(n);
    Text(Dec(n))
  }

  lemma DecIsOther(n: int)
    ensures !IsSpelled(Dec(n))
  {
    hide IsSpelled, Digits;
    if IsSpelled(Dec(n)) {
      SpelledInLetters(Dec(n));
    }
  }

  // ---------- The form ----------

  datatype FloodKill = FloodKill(
    enabled: bool, time: int64, move: int64, chat: int64, whisper: int64, esp: int64, page: int64, prop: int64,
    propDrop: int64, draw: int64, username: int64)

  datatype SoundLimit = SoundLimit(enabled: bool, times: int64, timeframe: int64)

  datatype PasswordSecurity = PasswordSecurity(
    minLength: int64, requireNumber: bool, requireSymbol: bool, requireUpper: bool, requireLower: bool)

  /** The form. Rooms is a list of ids in a submitted form; read from a file, only the set of them is
      determined, because the file keeps them as the keys of an object. */
  datatype Form<Rooms> = Form(
    website: bytes, ypLanguage: bytes, ypCategory: bytes, ypDescription: bytes,
    timeoutRoomId: int64, autopurgeBanlistDays: int64,
    unicodeNames: bool, unicodeFull: bool, altNames: bool, noLoosePropsNonOps: bool, espEnabled: bool,
    roomAnnotations: bytes, wizAuthoring: bytes, wizAuthoringAnnotation: bool,
    notifyLogon: bool, notifyLogoff: bool, publicMedia: bool, secureProps: bool,
    mediaManagerEnabled: bool, mediaManagerRank: bytes, mediaUploadConfigRank: bytes, legacyClientsBlock: bool,
    overflowRooms: seq<int>, propFreezeRooms: Rooms, ratbotsAllowedRooms: Rooms,
    floodKill: FloodKill, soundLimit: SoundLimit, passwordSecurity: PasswordSecurity)

  const NO_FLOOD_KILL := FloodKill(false, 0, 0, 0, 0, 0, 0, 0, 0, 0, 0)
  const DEFAULT_SOUND := SoundLimit(true, 10, 60)
  const DEFAULT_PASSWORD := PasswordSecurity(8, true, false, false, false)

  // ---------- Normal forms of fields ----------

  function NormalRoomAnnotations(s: bytes): bytes {
    var v := ToLower(Trim(s));
    if v == "off" || v == "wizards" || v == "everyone" then v
    else if v == "wizard" then "wizards"
    else "everyone"
  }

  function NormalWizAuthoring(s: bytes): bytes {
    var v := ToLower(Trim(s));
    if v == "on" || v == "off" || v == "bless" || v == "godonly" then v else "on"
  }

  function NormalMediaManagerRank(s: bytes): bytes {
    var v := ToLower(Trim(s));
    if v == "wizards" || v == "wizard" then "wizards"
    else if v == "gods" || v == "god" then "gods"
    else "owners"
  }

  function NormalMediaUploadRank(s: bytes): bytes {
    var v := ToLower(Trim(s));
    if v == "off" then "off"
    else if v == "wizards" || v == "wizard" then "wizards"
    else if v == "gods" || v == "god" then "gods"
    else "owners"
  }

  predicate IsRoom(n: int) {
    -32768 <= n <= 32767
  }

  function RoomsOnly(ids: seq<int>): (r: seq<int>)
    ensures forall n :: n in r <==> n in ids && IsRoom(n)
  {
    if ids == [] then []
    else
      var rest := RoomsOnly(ids[1..]);
      assert forall n :: n in ids <==> n == ids[0] || n in ids[1..];
      if IsRoom(ids[0]) then [ids[0]] + rest else rest
  }

  function RoomSet(ids: seq<int>): set<int> {
    set n | n in ids && IsRoom(n)
  }

  function Positive(n: int64, otherwise: int64): int64 {
    if n <= 0 then otherwise else n
  }

  function NormalSound(sl: SoundLimit): SoundLimit {
    sl.(times := Positive(sl.times, 10), timeframe := Positive(sl.timeframe, 60))
  }

  function NormalPassword(ps: PasswordSecurity): PasswordSecurity {
    ps.(minLength := Positive(ps.minLength, 8))
  }

  /** The normal form of a submitted form: what a later read shows. */
  function Norm(f: Form<seq<int>>): Form<set<int>> {
    Form(
      Trim(f.website), Trim(f.ypLanguage), Trim(f.ypCategory), Trim(f.ypDescription),
      f.timeoutRoomId, Positive(f.autopurgeBanlistDays, 0),
      f.unicodeNames, f.unicodeFull, f.altNames, f.noLoosePropsNonOps, f.espEnabled,
      NormalRoomAnnotations(f.roomAnnotations), NormalWizAuthoring(f.wizAuthoring), f.wizAuthoringAnnotation,
      f.notifyLogon, f.notifyLogoff, f.publicMedia, f.secureProps,
      f.mediaManagerEnabled, NormalMediaManagerRank(f.mediaManagerRank),
      NormalMediaUploadRank(f.mediaUploadConfigRank), f.legacyClientsBlock,
      RoomsOnly(f.overflowRooms), RoomSet(f.propFreezeRooms), RoomSet(f.ratbotsAllowedRooms),
      f.floodKill, NormalSound(f.soundLimit), NormalPassword(f.passwordSecurity))
  }

  // ---------- Reading ----------

  function ReadString(v: Option<Json>): bytes {
    if v.Some? && v.value.Str? then Trim(v.value.s) else ""
  }

  function ReadBool(v: Option<Json>, absentDefault: bool): bool {
    if v.Some? && v.value.Bool? then v.value.b else absentDefault
  }

  function ReadInt(v: Option<Json>): int64 {
    if v.Some? && v.value.Int? && IsInt64(v.value.n) then v.value.n else 0
  }

  /** An element of a decoded list of integers; a null element counts as 0. */
  predicate IsIntElement(j: Json) {
    j.Null? || (j.Int? && IsInt64(j.n))
  }

  function IntElement(j: Json): int {
    if j.Int? then j.n else 0
  }

  function Elements(js: seq<Json>): (r: seq<int>)
    ensures |r| == |js|
  {
    if js == [] then [] else [IntElement(js[0])] + Elements(js[1..])
  }

  function ReadOverflow(v: Option<Json>): seq<int> {
    if v.Some? && v.value.Arr? && forall j :: j in v.value.elements ==> IsIntElement(j)
    then RoomsOnly(Elements(v.value.elements)) else []
  }

  /** The room a key of a room object stands for. Named keys are no numbers. */
  function RoomOf(k: Key): Option<int> {
    if !k.Text? then None
    else
      var a := Atoi(Trim(k.s));
      if a.ok && IsRoom(a.v) then Some(a.v) else None
  }

  /** The rooms switched on in a room object; anything that is no object of booleans has none. */
  function ReadRooms(v: Option<Json>): set<int> {
    if v.Some? && v.value.Obj? && forall k :: k in v.value.fields ==> IsFlag(v.value.fields[k])
    then RoomsOn(v.value.fields) else {}
  }

  predicate TurnsOn(m: map<Key, Json>, k: Key, n: int) {
    k in m && m[k] == Bool(true) && RoomOf(k) == Some(n)
  }

  function RoomsOn(m: map<Key, Json>): set<int> {
    set k | k in m && m[k] == Bool(true) && RoomOf(k).Some? :: RoomOf(k).value
  }

  lemma RoomsOnMeaning(m: map<Key, Json>)
    ensures forall n :: n in RoomsOn(m) <==> exists k :: TurnsOn(m, k, n)
  {
    hide RoomOf;
    forall n ensures n in RoomsOn(m) <==> exists k :: TurnsOn(m, k, n) {
      if n in RoomsOn(m) {
        var k :| k in m && m[k] == Bool(true) && RoomOf(k).Some? && RoomOf(k).value == n;
        assert TurnsOn(m, k, n);
      }
      if k :| TurnsOn(m, k, n) {
        assert n == RoomOf(k).value;
      }
    }
  }

  predicate IsFlag(j: Json) {
    j.Null? || j.Bool?
  }

  // A struct field that is absent or null keeps the zero value; one of the wrong type fails the whole object.

  predicate IntFieldOk(m: map<Key, Json>, k: Key) {
    k in m ==> m[k].Null? || (m[k].Int? && IsInt64(m[k].n))
  }

  function IntField(m: map<Key, Json>, k: Key): int64 {
    if k in m && m[k].Int? && IsInt64(m[k].n) then m[k].n else 0
  }

  predicate BoolFieldOk(m: map<Key, Json>, k: Key) {
    k in m ==> IsFlag(m[k])
  }

  function BoolField(m: map<Key, Json>, k: Key): bool {
    k in m && m[k] == Bool(true)
  }

  function ReadFloodKill(v: Option<Json>): FloodKill {
    if v.Some? && v.value.Obj? && FloodKillOk(v.value.fields) then FloodKillFields(v.value.fields) else NO_FLOOD_KILL
  }

  predicate FloodKillOk(m: map<Key, Json>) {
    && BoolFieldOk(m, Enabled) && IntFieldOk(m, Time) && IntFieldOk(m, Move) && IntFieldOk(m, Chat)
    && IntFieldOk(m, Whisper) && IntFieldOk(m, Esp) && IntFieldOk(m, Page) && IntFieldOk(m, Prop)
    && IntFieldOk(m, PropDrop) && IntFieldOk(m, Draw) && IntFieldOk(m, Username)
  }

  function FloodKillFields(m: map<Key, Json>): FloodKill {
    FloodKill(
      BoolField(m, Enabled), IntField(m, Time), IntField(m, Move), IntField(m, Chat), IntField(m, Whisper),
      IntField(m, Esp), IntField(m, Page), IntField(m, Prop), IntField(m, PropDrop), IntField(m, Draw),
      IntField(m, Username))
  }

  function ReadSoundLimit(v: Option<Json>): SoundLimit {
    if v.Some? && v.value.Obj? && BoolFieldOk(v.value.fields, Enabled) && IntFieldOk(v.value.fields, Times)
       && IntFieldOk(v.value.fields, Timeframe)
    then
      NormalSound(SoundLimit(
        BoolField(v.value.fields, Enabled), IntField(v.value.fields, Times), IntField(v.value.fields, Timeframe)))
    else DEFAULT_SOUND
  }

  function ReadPasswordSecurity(v: Option<Json>): PasswordSecurity {
    if v.Some? && v.value.Obj? && IntFieldOk(v.value.fields, MinLength) && BoolFieldOk(v.value.fields, RequireNumber)
       && BoolFieldOk(v.value.fields, RequireSymbol) && BoolFieldOk(v.value.fields, RequireUpper)
       && BoolFieldOk(v.value.fields, RequireLower)
    then
      PasswordSecurity(
        IntField(v.value.fields, MinLength), BoolField(v.value.fields, RequireNumber),
        BoolField(v.value.fields, RequireSymbol), BoolField(v.value.fields, RequireUpper),
        BoolField(v.value.fields, RequireLower))
    else DEFAULT_PASSWORD
  }

  /** The form a file shows, given what its room objects show. */
  function FormOf<Rooms>(top: Top, propFreeze: Rooms, ratbots: Rooms): Form<Rooms> {
    Form(
      ReadString(Slot(top, Website)), ReadString(Slot(top, YpLanguage)), ReadString(Slot(top, YpCategory)),
      ReadString(Slot(top, YpDescription)), ReadInt(Slot(top, TimeoutRoomId)), ReadInt(Slot(top, AutopurgeBanlistDays)),
      ReadBool(Slot(top, UnicodeNames), false), ReadBool(Slot(top, Unicode), true), ReadBool(Slot(top, AltNames), true),
      ReadBool(Slot(top, NoLoosePropsNonOps), false), ReadBool(Slot(top, EspEnabled), true),
      NormalRoomAnnotations(ReadString(Slot(top, RoomAnnotations))),
      NormalWizAuthoring(ReadString(Slot(top, WizAuthoring))), ReadBool(Slot(top, WizAuthoringAnnotation), true),
      ReadBool(Slot(top, NotifyLogon), false), ReadBool(Slot(top, NotifyLogoff), false),
      ReadBool(Slot(top, PublicMedia), true), ReadBool(Slot(top, SecureProps), false),
      ReadBool(Slot(top, MediaManagerEnabled), true), NormalMediaManagerRank(ReadString(Slot(top, MediaManagerRank))),
      NormalMediaUploadRank(ReadString(Slot(top, MediaUploadConfigRank))), ReadBool(Slot(top, LegacyClients), false),
      ReadOverflow(Slot(top, OverflowRooms)), propFreeze, ratbots, ReadFloodKill(Slot(top, FloodKillLimits)),
      ReadSoundLimit(Slot(top, SoundLimitKey)), ReadPasswordSecurity(Slot(top, PasswordSecurityKey)))
  }

  /** The lens's get: the form a file shows, with room objects as sets. */
  function Viewed(top: Top): Form<set<int>> {
    FormOf(top, ReadRooms(Slot(top, PropFreezeRooms)), ReadRooms(Slot(top, RatbotsAllowedRooms)))
  }

  /** The room-object reader: it walks the object in no particular order, so only the set of rooms it
      returns is determined. */
  method IntRoomSetFromMapObj(top: Top, key: Key) returns (out: seq<int>)
    ensures (set n | n in out) == ReadRooms(Slot(top, key))
  {
    hide IsSpelled;
    out := [];
    hide Trim, Atoi;
    if key !in top || top[key].Null? || !top[key].Obj? {
      return;
    }
    var obj := top[key].fields;
    var ok := AllFlags(obj);
    if !ok {
      return;
    }
    var todo := obj.Keys;
    while todo != {}
      invariant todo <= obj.Keys
      invariant forall n :: n in out <==> exists k :: k !in todo && TurnsOn(obj, k, n)
      decreases |todo|
    {
      var ks :| ks in todo;
      ghost var before, was := todo, out;
      todo := todo - {ks};
      if obj[ks].Bool? && obj[ks].b && ks.Text? {
        var a := Atoi(Trim(ks.s));
        if a.ok && -32768 <= a.v <= 32767 {
          out := out + [a.v];
        }
      }
      RoomTurn(obj, ks, before, was, out);
    }
    RoomsOnMeaning(obj);
    assert forall n :: n in out <==> n in RoomsOn(obj);
  }

  lemma RoomTurn(obj: map<Key, Json>, ks: Key, todo: set<Key>, was: seq<int>, out: seq<int>)
    requires ks in todo && todo <= obj.Keys && forall n :: n in was <==> exists k :: k !in todo && TurnsOn(obj, k, n)
    requires out == if obj[ks] == Bool(true) && RoomOf(ks).Some? then was + [RoomOf(ks).value] else was
    ensures forall n :: n in out <==> exists k :: k !in todo - {ks} && TurnsOn(obj, k, n)
  {
    hide IsSpelled;
    hide RoomOf;
    forall n ensures n in out <==> exists k :: k !in todo - {ks} && TurnsOn(obj, k, n) {
      if n in was {
        var k :| k !in todo && TurnsOn(obj, k, n);
        assert k !in todo - {ks};
      } else if n in out {
        assert TurnsOn(obj, ks, n);
      }
      if k :| k !in todo - {ks} && TurnsOn(obj, k, n) {
        assert k == ks || k !in todo;
      }
    }
  }

  /** Whether an object decodes as a map of booleans. */
  method AllFlags(obj: map<Key, Json>) returns (ok: bool)
    ensures ok <==> forall k :: k in obj ==> IsFlag(obj[k])
  {
    var todo := obj.Keys;
    while todo != {}
      invariant todo <= obj.Keys
      invariant forall k :: k in obj && k !in todo ==> IsFlag(obj[k])
      decreases |todo|
    {
      var k :| k in todo;
      if !IsFlag(obj[k]) {
        return false;
      }
      todo := todo - {k};
    }
    return true;
  }

  /** The sets of rooms in a form. */
  function InSets(f: Form<seq<int>>): Form<set<int>> {
    Form(
      f.website, f.ypLanguage, f.ypCategory, f.ypDescription, f.timeoutRoomId, f.autopurgeBanlistDays, f.unicodeNames,
      f.unicodeFull, f.altNames, f.noLoosePropsNonOps, f.espEnabled, f.roomAnnotations, f.wizAuthoring,
      f.wizAuthoringAnnotation, f.notifyLogon, f.notifyLogoff, f.publicMedia, f.secureProps, f.mediaManagerEnabled,
      f.mediaManagerRank, f.mediaUploadConfigRank, f.legacyClientsBlock, f.overflowRooms,
      (set n | n in f.propFreezeRooms), (set n | n in f.ratbotsAllowedRooms), f.floodKill, f.soundLimit,
      f.passwordSecurity)
  }

  method MapToForm(top: Top) returns (form: Form<seq<int>>)
    ensures InSets(form) == Viewed(top)
  {
    hide Trim, NormalRoomAnnotations, NormalWizAuthoring, NormalMediaManagerRank, NormalMediaUploadRank, ReadRooms;
    hide ReadString, ReadBool, ReadInt, ReadOverflow, ReadFloodKill, ReadSoundLimit, ReadPasswordSecurity, Slot;
    var propFreeze := IntRoomSetFromMapObj(top, PropFreezeRooms);
    var ratbots := IntRoomSetFromMapObj(top, RatbotsAllowedRooms);
    form := FormOf(top, propFreeze, ratbots);
  }

  // ---------- What the form asks of each key ----------

  // The keys a save may change: the guided ones and the format version.

  function TextKeys(): set<Key> {
    {Website, YpLanguage, YpCategory, YpDescription, TimeoutRoomId, AutopurgeBanlistDays}
  }

  function NameKeys(): set<Key> {
    {UnicodeNames, Unicode, AltNames}
  }

  function RuleKeys(): set<Key> {
    {NoLoosePropsNonOps, EspEnabled}
  }

  function AuthoringKeys(): set<Key> {
    {RoomAnnotations, WizAuthoring, WizAuthoringAnnotation}
  }

  function NoticeKeys(): set<Key> {
    {NotifyLogon, NotifyLogoff}
  }

  function MediaKeys(): set<Key> {
    {PublicMedia, SecureProps, MediaManagerEnabled}
  }

  function RankKeys(): set<Key> {
    {MediaManagerRank, MediaUploadConfigRank, LegacyClients}
  }

  function RoomListKeys(): set<Key> {
    {OverflowRooms, PropFreezeRooms, RatbotsAllowedRooms}
  }

  function LimitKeys(): set<Key> {
    {FloodKillLimits, SoundLimitKey, PasswordSecurityKey, Version}
  }

  predicate Managed(k: Key) {
    || k in TextKeys() || k in NameKeys() || k in RuleKeys() || k in AuthoringKeys() || k in NoticeKeys()
    || k in MediaKeys() || k in RankKeys() || k in RoomListKeys() || k in LimitKeys()
  }

  /** preservedKeys. */
  predicate Preserved(k: Key) {
    match k
    case ModerationRecords => true
    case ModerationSchema => true
    case PromotionPasswords => true
    case PromotionPasswordSchema => true
    case CommandRanks => true
    case OperatorHold => true
    case NameGag => true
    case BlessConfig => true
    case BlessConfigSchema => true
    case NickRegistration => true
    case RegisterNick => true
    case RatbotAvatar => true
    case _ => false
  }

  function TextValue(s: bytes): Option<Json> {
    if Trim(s) == "" then None else Some(Str(Trim(s)))
  }

  /** A flag is written only when it differs from its default. */
  function FlagValue(b: bool, absentDefault: bool): Option<Json> {
    if b == absentDefault then None else Some(Bool(b))
  }

  function ChoiceValue(v: bytes, default: bytes): Option<Json> {
    if v == default then None else Some(Str(v))
  }

  function Ints(ids: seq<int>): seq<Json> {
    seq(|ids|, i requires 0 <= i < |ids| => Int(ids[i]))
  }

  function OverflowValue(ids: seq<int>): Option<Json> {
    if RoomsOnly(ids) == [] then None else Some(Arr(Ints(RoomsOnly(ids))))
  }

  function RoomObject(rooms: set<int>): map<Key, Json> {
    map k | k in RoomKeys(rooms) :: Bool(true)
  }

  function RoomKeys(rooms: set<int>): set<Key> {
    set n | n in rooms :: RoomName(n)
  }

  function RoomsValue(ids: seq<int>): Option<Json> {
    if RoomsOnly(ids) == [] then None else Some(Obj(RoomObject(RoomSet(ids))))
  }

  function FloodKillObject(fk: FloodKill): map<Key, Json> {
    map[Enabled := Bool(fk.enabled), Time := Int(fk.time), Move := Int(fk.move), Chat := Int(fk.chat),
        Whisper := Int(fk.whisper), Esp := Int(fk.esp), Page := Int(fk.page), Prop := Int(fk.prop),
        PropDrop := Int(fk.propDrop), Draw := Int(fk.draw), Username := Int(fk.username)]
  }

  function FloodKillValue(fk: FloodKill): Option<Json> {
    if fk == NO_FLOOD_KILL then None else Some(Obj(FloodKillObject(fk)))
  }

  function SoundLimitValue(given: SoundLimit): Option<Json> {
    var sl := NormalSound(given);
    if sl == DEFAULT_SOUND then None else Some(Obj(SoundObject(sl)))
  }

  function SoundObject(sl: SoundLimit): map<Key, Json> {
    map[Enabled := Bool(sl.enabled), Times := Int(sl.times), Timeframe := Int(sl.timeframe)]
  }

  function PasswordValue(given: PasswordSecurity): Option<Json> {
    var ps := NormalPassword(given);
    if ps == DEFAULT_PASSWORD then None else Some(Obj(PasswordObject(ps)))
  }

  function PasswordObject(ps: PasswordSecurity): map<Key, Json> {
    map[MinLength := Int(ps.minLength), RequireNumber := Bool(ps.requireNumber),
        RequireSymbol := Bool(ps.requireSymbol), RequireUpper := Bool(ps.requireUpper),
        RequireLower := Bool(ps.requireLower)]
  }

  /** The value of a flag's key; None when the flag is at its default. */
  function AskedFlag(f: Form<seq<int>>, k: Key): Option<Json> {
    match k
    case UnicodeNames => FlagValue(f.unicodeNames, false)
    case Unicode => FlagValue(f.unicodeFull, true)
    case AltNames => FlagValue(f.altNames, true)
    case NoLoosePropsNonOps => FlagValue(f.noLoosePropsNonOps, false)
    case EspEnabled => FlagValue(f.espEnabled, true)
    case WizAuthoringAnnotation => FlagValue(f.wizAuthoringAnnotation, true)
    case NotifyLogon => FlagValue(f.notifyLogon, false)
    case NotifyLogoff => FlagValue(f.notifyLogoff, false)
    case PublicMedia => FlagValue(f.publicMedia, true)
    case SecureProps => FlagValue(f.secureProps, false)
    case MediaManagerEnabled => FlagValue(f.mediaManagerEnabled, true)
    case LegacyClients => FlagValue(f.legacyClientsBlock, false)
    case _ => None
  }

  /** The value each guided key and version must have after a save; None when it must be absent. */
  function Asked(f: Form<seq<int>>, k: Key): Option<Json> {
    match k
    case UnicodeNames => AskedFlag(f, k)
    case Unicode => AskedFlag(f, k)
    case AltNames => AskedFlag(f, k)
    case NoLoosePropsNonOps => AskedFlag(f, k)
    case EspEnabled => AskedFlag(f, k)
    case WizAuthoringAnnotation => AskedFlag(f, k)
    case NotifyLogon => AskedFlag(f, k)
    case NotifyLogoff => AskedFlag(f, k)
    case PublicMedia => AskedFlag(f, k)
    case SecureProps => AskedFlag(f, k)
    case MediaManagerEnabled => AskedFlag(f, k)
    case LegacyClients => AskedFlag(f, k)
    case Website => TextValue(f.website)
    case YpLanguage => TextValue(f.ypLanguage)
    case YpCategory => TextValue(f.ypCategory)
    case YpDescription => TextValue(f.ypDescription)
    case TimeoutRoomId => if f.timeoutRoomId == 0 then None else Some(Int(f.timeoutRoomId))
    case AutopurgeBanlistDays => if f.autopurgeBanlistDays <= 0 then None else Some(Int(f.autopurgeBanlistDays))
    case RoomAnnotations => ChoiceValue(NormalRoomAnnotations(f.roomAnnotations), "everyone")
    case WizAuthoring => ChoiceValue(NormalWizAuthoring(f.wizAuthoring), "on")
    case MediaManagerRank => ChoiceValue(NormalMediaManagerRank(f.mediaManagerRank), "owners")
    case MediaUploadConfigRank => ChoiceValue(NormalMediaUploadRank(f.mediaUploadConfigRank), "owners")
    case OverflowRooms => OverflowValue(f.overflowRooms)
    case PropFreezeRooms => RoomsValue(f.propFreezeRooms)
    case RatbotsAllowedRooms => RoomsValue(f.ratbotsAllowedRooms)
    case FloodKillLimits => FloodKillValue(f.floodKill)
    case SoundLimitKey => SoundLimitValue(f.soundLimit)
    case PasswordSecurityKey => PasswordValue(f.passwordSecurity)
    case Version => Some(Int(1))
    case _ => None
  }

  /** A save under way: the keys done so far are as the form asks, every other key is as it was. */
  ghost predicate Upto(orig: Top, f: Form<seq<int>>, top: Top, done: set<Key>) {
    forall k :: Slot(top, k) == if k in done then Asked(f, k) else Slot(orig, k)
  }

  /** What a save must leave: every managed key as the form asks, every other key as it was. */
  ghost predicate IsApplied(orig: Top, f: Form<seq<int>>, top: Top) {
    forall k :: Slot(top, k) == if Managed(k) then Asked(f, k) else Slot(orig, k)
  }

  // ---------- Saving ----------

  lemma Next(orig: Top, f: Form<seq<int>>, was: Top, done: set<Key>, k: Key, top: Top)
    requires Upto(orig, f, was, done) && top == With(was, k, Asked(f, k))
    ensures Upto(orig, f, top, done + {k})
  {
    hide Asked;
  }

  const PRESERVED_KEYS: seq<Key> :=
    [ModerationRecords, ModerationSchema, PromotionPasswords, PromotionPasswordSchema, CommandRanks, OperatorHold,
     NameGag, BlessConfig, BlessConfigSchema, NickRegistration, RegisterNick, RatbotAvatar]

  method SetStringKey(was: Top, key: Key, given: bytes) returns (top: Top)
    ensures top == With(was, key, TextValue(given))
  {
    hide Trim;
    var s := Trim(given);
    if s == "" {
      return was - {key};
    }
    return was[key := Str(s)];
  }

  method SetRoomBoolMap(was: Top, key: Key, roomIDs: seq<int>) returns (top: Top)
    ensures top == With(was, key, RoomsValue(roomIDs))
  {
    hide IsSpelled;
    hide Dec, RoomObject, RoomSet, RoomsOnly;
    RoomObjectEmpty(roomIDs);
    if |roomIDs| == 0 {
      NoRooms();
      return was - {key};
    }
    var obj: map<Key, Json> := map[];
    assert roomIDs[..0] == [];
    NoRooms();
    for i := 0 to |roomIDs|
      invariant obj == RoomObject(RoomSet(roomIDs[..i]))
    {
      var id := roomIDs[i];
      RoomObjectGrows(roomIDs, i);
      if id < -32768 || id > 32767 {
        continue;
      }
      obj := obj[RoomName(id) := Bool(true)];
    }
    assert roomIDs[..|roomIDs|] == roomIDs;
    if |obj| == 0 {
      return was - {key};
    }
    return was[key := Obj(obj)];
  }

  lemma NoRooms()
    ensures RoomsOnly([]) == [] && RoomObject(RoomSet([])) == map[]
  {
    RoomObjectEmpty([]);
  }

  lemma RoomObjectGrows(ids: seq<int>, i: nat)
    requires i < |ids|
    ensures RoomObject(RoomSet(ids[..i + 1])) ==
            if IsRoom(ids[i]) then RoomObject(RoomSet(ids[..i]))[RoomName(ids[i]) := Bool(true)]
            else RoomObject(RoomSet(ids[..i]))
  {
    hide IsSpelled;
    hide Dec;
    var before, n := RoomSet(ids[..i]), ids[i];
    assert ids[..i + 1] == ids[..i] + [n];
    if IsRoom(n) {
      assert RoomSet(ids[..i + 1]) == before + {n};
      assert RoomKeys(before + {n}) == RoomKeys(before) + {RoomName(n)};
    } else {
      assert RoomSet(ids[..i + 1]) == before;
    }
  }

  lemma RoomObjectEmpty(ids: seq<int>)
    ensures |RoomObject(RoomSet(ids))| == 0 <==> RoomsOnly(ids) == []
  {
    hide Dec, RoomsOnly;
    var m := RoomObject(RoomSet(ids));
    if RoomsOnly(ids) != [] {
      var n := RoomsOnly(ids)[0];
      assert n in RoomsOnly(ids) && n in RoomSet(ids);
      assert RoomName(n) in m.Keys;
    } else {
      assert forall n :: n in RoomSet(ids) ==> n in RoomsOnly(ids);
      assert m.Keys == {};
    }
  }

  method OverflowOnly(ids: seq<int>) returns (arr: seq<int>)
    ensures arr == RoomsOnly(ids)
  {
    arr := [];
    for i := 0 to |ids|
      invariant arr + RoomsOnly(ids[i..]) == RoomsOnly(ids)
    {
      assert ids[i..][1..] == ids[i + 1..];
      var id := ids[i];
      if id < -32768 || id > 32767 {
        continue;
      }
      arr := arr + [id];
    }
  }

  /** setJSON: nil removes the key. */
  method SetJson(was: Top, key: Key, v: Option<Json>) returns (top: Top)
    ensures top == With(was, key, v)
  {
    if v.None? {
      return was - {key};
    }
    return was[key := v.value];
  }

  method SetOverflow(was: Top, ids: seq<int>) returns (top: Top)
    ensures top == With(was, OverflowRooms, OverflowValue(ids))
  {
    if |ids| == 0 {
      return was - {OverflowRooms};
    }
    var arr := OverflowOnly(ids);
    if |arr| == 0 {
      return was - {OverflowRooms};
    }
    return was[OverflowRooms := Arr(Ints(arr))];
  }

  /** A flag at its default is removed. */
  method SetFlag(was: Top, key: Key, b: bool, absentDefault: bool) returns (top: Top)
    ensures top == With(was, key, FlagValue(b, absentDefault))
  {
    if b == absentDefault {
      return was - {key};
    }
    return was[key := Bool(b)];
  }

  /** A choice at its default is removed. */
  method SetChoice(was: Top, key: Key, choice: bytes, default: bytes) returns (top: Top)
    ensures top == With(was, key, ChoiceValue(choice, default))
  {
    if choice == default {
      return was - {key};
    }
    return was[key := Str(choice)];
  }

  method SetFloodKill(was: Top, fk: FloodKill) returns (top: Top)
    ensures top == With(was, FloodKillLimits, FloodKillValue(fk))
  {
    hide FloodKillObject;
    if !fk.enabled && fk.move == 0 && fk.chat == 0 && fk.whisper == 0 && fk.esp == 0 && fk.page == 0 && fk.prop == 0
       && fk.propDrop == 0 && fk.draw == 0 && fk.username == 0 && fk.time == 0
    {
      return was - {FloodKillLimits};
    }
    return was[FloodKillLimits := Obj(FloodKillObject(fk))];
  }

  method SetSoundLimit(was: Top, given: SoundLimit) returns (top: Top)
    ensures top == With(was, SoundLimitKey, SoundLimitValue(given))
  {
    var sl := given;
    if sl.times <= 0 {
      sl := sl.(times := 10);
    }
    if sl.timeframe <= 0 {
      sl := sl.(timeframe := 60);
    }
    if sl.enabled && sl.times == 10 && sl.timeframe == 60 {
      return was - {SoundLimitKey};
    }
    return was[SoundLimitKey := Obj(SoundObject(sl))];
  }

  method SetPasswordSecurity(was: Top, given: PasswordSecurity) returns (top: Top)
    ensures top == With(was, PasswordSecurityKey, PasswordValue(given))
  {
    var ps := given;
    if ps.minLength <= 0 {
      ps := ps.(minLength := 8);
    }
    if ps.minLength == 8 && ps.requireNumber && !ps.requireSymbol && !ps.requireUpper && !ps.requireLower {
      return was - {PasswordSecurityKey};
    }
    return was[PasswordSecurityKey := Obj(PasswordObject(ps))];
  }

  /** An empty text and a zero number are removed. */
  method PutTexts(orig: Top, f: Form<seq<int>>, was: Top, ghost done: set<Key>) returns (top: Top)
    requires Upto(orig, f, was, done)
    ensures Upto(orig, f, top, done + TextKeys())
  {
    hide Trim, TextValue, FlagValue, ChoiceValue, OverflowValue, RoomsValue, FloodKillValue, SoundLimitValue;
    hide PasswordValue, Upto, With, NormalRoomAnnotations, NormalWizAuthoring, NormalMediaManagerRank, NormalMediaUploadRank;
    hide AskedFlag;
    top := was;
    ghost var before, d := top, done;
    top := SetStringKey(top, Website, f.website);
    Next(orig, f, before, d, Website, top);
    before, d := top, d + {Website};
    top := SetStringKey(top, YpLanguage, f.ypLanguage);
    Next(orig, f, before, d, YpLanguage, top);
    before, d := top, d + {YpLanguage};
    top := SetStringKey(top, YpCategory, f.ypCategory);
    Next(orig, f, before, d, YpCategory, top);
    before, d := top, d + {YpCategory};
    top := SetStringKey(top, YpDescription, f.ypDescription);
    Next(orig, f, before, d, YpDescription, top);
    before, d := top, d + {YpDescription};
    top := SetJson(top, TimeoutRoomId, if f.timeoutRoomId == 0 then None else Some(Int(f.timeoutRoomId)));
    Next(orig, f, before, d, TimeoutRoomId, top);
    before, d := top, d + {TimeoutRoomId};
    top := SetJson(top, AutopurgeBanlistDays, if f.autopurgeBanlistDays <= 0 then None else Some(Int(f.autopurgeBanlistDays)));
    Next(orig, f, before, d, AutopurgeBanlistDays, top);
    assert d + {AutopurgeBanlistDays} == done + TextKeys();
  }

  /** A flag at its default is removed. */
  method PutNames(orig: Top, f: Form<seq<int>>, was: Top, ghost done: set<Key>) returns (top: Top)
    requires Upto(orig, f, was, done)
    ensures Upto(orig, f, top, done + NameKeys())
  {
    hide Trim, TextValue, FlagValue, ChoiceValue, OverflowValue, RoomsValue, FloodKillValue, SoundLimitValue;
    hide PasswordValue, Upto, With, NormalRoomAnnotations, NormalWizAuthoring, NormalMediaManagerRank, NormalMediaUploadRank;
    top := was;
    ghost var before, d := top, done;
    top := SetFlag(top, UnicodeNames, f.unicodeNames, false);
    Next(orig, f, before, d, UnicodeNames, top);
    before, d := top, d + {UnicodeNames};
    top := SetFlag(top, Unicode, f.unicodeFull, true);
    Next(orig, f, before, d, Unicode, top);
    before, d := top, d + {Unicode};
    top := SetFlag(top, AltNames, f.altNames, true);
    Next(orig, f, before, d, AltNames, top);
    assert d + {AltNames} == done + NameKeys();
  }

  /** The loose-props and ESP flags. */
  method PutRules(orig: Top, f: Form<seq<int>>, was: Top, ghost done: set<Key>) returns (top: Top)
    requires Upto(orig, f, was, done)
    ensures Upto(orig, f, top, done + RuleKeys())
  {
    hide Trim, TextValue, FlagValue, ChoiceValue, OverflowValue, RoomsValue, FloodKillValue, SoundLimitValue;
    hide PasswordValue, Upto, With, NormalRoomAnnotations, NormalWizAuthoring, NormalMediaManagerRank, NormalMediaUploadRank;
    top := was;
    ghost var before, d := top, done;
    top := SetFlag(top, NoLoosePropsNonOps, f.noLoosePropsNonOps, false);
    Next(orig, f, before, d, NoLoosePropsNonOps, top);
    before, d := top, d + {NoLoosePropsNonOps};
    top := SetFlag(top, EspEnabled, f.espEnabled, true);
    Next(orig, f, before, d, EspEnabled, top);
    assert d + {EspEnabled} == done + RuleKeys();
  }

  /** A choice at its default is removed. */
  method PutAuthoring(orig: Top, f: Form<seq<int>>, was: Top, ghost done: set<Key>) returns (top: Top)
    requires Upto(orig, f, was, done)
    ensures Upto(orig, f, top, done + AuthoringKeys())
  {
    hide Trim, TextValue, FlagValue, ChoiceValue, OverflowValue, RoomsValue, FloodKillValue, SoundLimitValue;
    hide PasswordValue, Upto, With, NormalRoomAnnotations, NormalWizAuthoring, NormalMediaManagerRank, NormalMediaUploadRank;
    top := was;
    ghost var before, d := top, done;
    top := SetChoice(top, RoomAnnotations, NormalRoomAnnotations(f.roomAnnotations), "everyone");
    Next(orig, f, before, d, RoomAnnotations, top);
    before, d := top, d + {RoomAnnotations};
    top := SetChoice(top, WizAuthoring, NormalWizAuthoring(f.wizAuthoring), "on");
    Next(orig, f, before, d, WizAuthoring, top);
    before, d := top, d + {WizAuthoring};
    top := SetFlag(top, WizAuthoringAnnotation, f.wizAuthoringAnnotation, true);
    Next(orig, f, before, d, WizAuthoringAnnotation, top);
    assert d + {WizAuthoringAnnotation} == done + AuthoringKeys();
  }

  /** More flags. */
  method PutMedia(orig: Top, f: Form<seq<int>>, was: Top, ghost done: set<Key>) returns (top: Top)
    requires Upto(orig, f, was, done)
    ensures Upto(orig, f, top, done + MediaKeys())
  {
    hide Trim, TextValue, FlagValue, ChoiceValue, OverflowValue, RoomsValue, FloodKillValue, SoundLimitValue;
    hide PasswordValue, Upto, With, NormalRoomAnnotations, NormalWizAuthoring, NormalMediaManagerRank, NormalMediaUploadRank;
    top := was;
    ghost var before, d := top, done;
    top := SetFlag(top, PublicMedia, f.publicMedia, true);
    Next(orig, f, before, d, PublicMedia, top);
    before, d := top, d + {PublicMedia};
    top := SetFlag(top, SecureProps, f.secureProps, false);
    Next(orig, f, before, d, SecureProps, top);
    before, d := top, d + {SecureProps};
    top := SetFlag(top, MediaManagerEnabled, f.mediaManagerEnabled, true);
    Next(orig, f, before, d, MediaManagerEnabled, top);
    assert d + {MediaManagerEnabled} == done + MediaKeys();
  }

  /** The logon and logoff notices. */
  method PutNotices(orig: Top, f: Form<seq<int>>, was: Top, ghost done: set<Key>) returns (top: Top)
    requires Upto(orig, f, was, done)
    ensures Upto(orig, f, top, done + NoticeKeys())
  {
    hide Trim, TextValue, FlagValue, ChoiceValue, OverflowValue, RoomsValue, FloodKillValue, SoundLimitValue;
    hide PasswordValue, Upto, With, NormalRoomAnnotations, NormalWizAuthoring, NormalMediaManagerRank, NormalMediaUploadRank;
    top := was;
    ghost var before, d := top, done;
    top := SetFlag(top, NotifyLogon, f.notifyLogon, false);
    Next(orig, f, before, d, NotifyLogon, top);
    before, d := top, d + {NotifyLogon};
    top := SetFlag(top, NotifyLogoff, f.notifyLogoff, false);
    Next(orig, f, before, d, NotifyLogoff, top);
    assert d + {NotifyLogoff} == done + NoticeKeys();
  }

  /** The media ranks. */
  method PutRanks(orig: Top, f: Form<seq<int>>, was: Top, ghost done: set<Key>) returns (top: Top)
    requires Upto(orig, f, was, done)
    ensures Upto(orig, f, top, done + RankKeys())
  {
    hide Trim, TextValue, FlagValue, ChoiceValue, OverflowValue, RoomsValue, FloodKillValue, SoundLimitValue;
    hide PasswordValue, Upto, With, NormalRoomAnnotations, NormalWizAuthoring, NormalMediaManagerRank, NormalMediaUploadRank;
    top := was;
    ghost var before, d := top, done;
    top := SetChoice(top, MediaManagerRank, NormalMediaManagerRank(f.mediaManagerRank), "owners");
    Next(orig, f, before, d, MediaManagerRank, top);
    before, d := top, d + {MediaManagerRank};
    top := SetChoice(top, MediaUploadConfigRank, NormalMediaUploadRank(f.mediaUploadConfigRank), "owners");
    Next(orig, f, before, d, MediaUploadConfigRank, top);
    before, d := top, d + {MediaUploadConfigRank};
    top := SetFlag(top, LegacyClients, f.legacyClientsBlock, false);
    Next(orig, f, before, d, LegacyClients, top);
    assert d + {LegacyClients} == done + RankKeys();
  }

  /** Rooms outside the 16-bit range are dropped; empty lists are removed. */
  method PutRooms(orig: Top, f: Form<seq<int>>, was: Top, ghost done: set<Key>) returns (top: Top)
    requires Upto(orig, f, was, done)
    ensures Upto(orig, f, top, done + RoomListKeys())
  {
    hide Trim, TextValue, FlagValue, ChoiceValue, OverflowValue, RoomsValue, FloodKillValue, SoundLimitValue;
    hide PasswordValue, Upto, With, NormalRoomAnnotations, NormalWizAuthoring, NormalMediaManagerRank, NormalMediaUploadRank;
    hide AskedFlag;
    top := was;
    ghost var before, d := top, done;
    top := SetOverflow(top, f.overflowRooms);
    Next(orig, f, before, d, OverflowRooms, top);
    before, d := top, d + {OverflowRooms};
    top := SetRoomBoolMap(top, PropFreezeRooms, f.propFreezeRooms);
    Next(orig, f, before, d, PropFreezeRooms, top);
    before, d := top, d + {PropFreezeRooms};
    top := SetRoomBoolMap(top, RatbotsAllowedRooms, f.ratbotsAllowedRooms);
    Next(orig, f, before, d, RatbotsAllowedRooms, top);
    assert d + {RatbotsAllowedRooms} == done + RoomListKeys();
  }

  /** Limits at their defaults are removed, and the format version is written. */
  method PutLimits(orig: Top, f: Form<seq<int>>, was: Top, ghost done: set<Key>) returns (top: Top)
    requires Upto(orig, f, was, done)
    ensures Upto(orig, f, top, done + LimitKeys())
  {
    hide Trim, TextValue, FlagValue, ChoiceValue, OverflowValue, RoomsValue, FloodKillValue, SoundLimitValue;
    hide PasswordValue, Upto, With, NormalRoomAnnotations, NormalWizAuthoring, NormalMediaManagerRank, NormalMediaUploadRank;
    hide AskedFlag;
    top := was;
    ghost var before, d := top, done;
    top := SetFloodKill(top, f.floodKill);
    Next(orig, f, before, d, FloodKillLimits, top);
    before, d := top, d + {FloodKillLimits};
    top := SetSoundLimit(top, f.soundLimit);
    Next(orig, f, before, d, SoundLimitKey, top);
    before, d := top, d + {SoundLimitKey};
    top := SetPasswordSecurity(top, f.passwordSecurity);
    Next(orig, f, before, d, PasswordSecurityKey, top);
    before, d := top, d + {PasswordSecurityKey};
    top := SetJson(top, Version, Some(Int(1)));
    Next(orig, f, before, d, Version, top);
    assert d + {Version} == done + LimitKeys();
  }

  lemma NothingDone(orig: Top, f: Form<seq<int>>)
    ensures Upto(orig, f, orig, {})
  {
    hide Asked;
  }

  lemma AllDone(orig: Top, f: Form<seq<int>>, top: Top, done: set<Key>)
    requires Upto(orig, f, top, done) && forall k :: k in done <==> Managed(k)
    ensures IsApplied(orig, f, top)
  {
    hide Asked, Managed;
  }

  method ApplyFormToMap(orig: Top, f: Form<seq<int>>) returns (top: Top)
    ensures IsApplied(orig, f, top)
  {
    hide Asked, Upto, TextKeys, NameKeys, RuleKeys, AuthoringKeys, NoticeKeys, MediaKeys, RankKeys, RoomListKeys, LimitKeys;
    top := orig;
    assert Upto(orig, f, top, {}) by {
      NothingDone(orig, f);
    }
    for i := 0 to |PRESERVED_KEYS|
      invariant top == orig
    {
      var k := PRESERVED_KEYS[i];
      if k in orig {
        top := top[k := orig[k]];
      } else {
        top := top - {k};
      }
    }
    ghost var done: set<Key> := {};
    top := PutTexts(orig, f, top, done);
    done := done + TextKeys();
    top := PutNames(orig, f, top, done);
    done := done + NameKeys();
    top := PutRules(orig, f, top, done);
    done := done + RuleKeys();
    top := PutAuthoring(orig, f, top, done);
    done := done + AuthoringKeys();
    top := PutNotices(orig, f, top, done);
    done := done + NoticeKeys();
    top := PutMedia(orig, f, top, done);
    done := done + MediaKeys();
    top := PutRanks(orig, f, top, done);
    done := done + RankKeys();
    top := PutRooms(orig, f, top, done);
    done := done + RoomListKeys();
    top := PutLimits(orig, f, top, done);
    done := done + LimitKeys();
    AllDone(orig, f, top, done);
  }
}
