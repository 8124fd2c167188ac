/** What a file shows, whoever wrote it: each guided key by itself, values of the wrong type included. */
module ServerPrefsFiles {
  import opened Wrappers
  import opened Bytes
  import opened Numbers
  import opened NumberLaws
  import opened ServerPrefsLens
  import opened ServerPrefsChoices

  // ---------- Texts, numbers and flags ----------

  function TextShown(f: Form<set<int>>, k: Key): Option<bytes> {
    match k
    case Website => Some(f.website)
    case YpLanguage => Some(f.ypLanguage)
    case YpCategory => Some(f.ypCategory)
    case YpDescription => Some(f.ypDescription)
    case _ => None
  }

  function NumberShown(f: Form<set<int>>, k: Key): Option<int> {
    match k
    case TimeoutRoomId => Some(f.timeoutRoomId)
    case AutopurgeBanlistDays => Some(f.autopurgeBanlistDays)
    case _ => None
  }

  function FlagShown(f: Form<set<int>>, k: Key): Option<bool> {
    match k
    case UnicodeNames => Some(f.unicodeNames)
    case Unicode => Some(f.unicodeFull)
    case AltNames => Some(f.altNames)
    case NoLoosePropsNonOps => Some(f.noLoosePropsNonOps)
    case EspEnabled => Some(f.espEnabled)
    case WizAuthoringAnnotation => Some(f.wizAuthoringAnnotation)
    case NotifyLogon => Some(f.notifyLogon)
    case NotifyLogoff => Some(f.notifyLogoff)
    case PublicMedia => Some(f.publicMedia)
    case SecureProps => Some(f.secureProps)
    case MediaManagerEnabled => Some(f.mediaManagerEnabled)
    case LegacyClients => Some(f.legacyClientsBlock)
    case _ => None
  }

  /** A text is shown without the white space around it; any other value is shown as none. */
  lemma TextRead(top: Top, k: Key, left: bytes, s: bytes, right: bytes)
    requires TextShown(DEFAULT_FORM, k).Some? && AllSpace(left) && AllSpace(right) && Trimmed(s)
    ensures Slot(top, k) == Some(Str(left + s + right)) ==> TextShown(Viewed(top), k) == Some(s)
    ensures (forall t :: Slot(top, k) != Some(Str(t))) ==> TextShown(Viewed(top), k) == Some("")
  {
    hide Trim, Slot, FormOf;
    TrimPadded(left, s, right);
    FormTexts(top, k);
  }

  lemma FormTexts(top: Top, k: Key)
    requires TextShown(DEFAULT_FORM, k).Some?
    ensures TextShown(Viewed(top), k) == Some(ReadString(Slot(top, k)))
  {
    hide Slot, ReadString, ReadBool, ReadInt, ReadOverflow, ReadRooms, ReadFloodKill, ReadSoundLimit, ReadPasswordSecurity;
  }

  /** A 64-bit integer is shown as it is, negative or not; any other value as 0. */
  lemma NumberRead(top: Top, k: Key)
    requires NumberShown(DEFAULT_FORM, k).Some?
    ensures forall n: int64 :: Slot(top, k) == Some(Int(n)) ==> NumberShown(Viewed(top), k) == Some(n)
    ensures (forall n: int64 :: Slot(top, k) != Some(Int(n))) ==> NumberShown(Viewed(top), k) == Some(0)
  {
    hide Slot, ReadString, ReadBool, ReadOverflow, ReadRooms, ReadFloodKill, ReadSoundLimit, ReadPasswordSecurity;
  }

  predicate IsEarlyFlag(k: Key) {
    k.UnicodeNames? || k.Unicode? || k.AltNames? || k.NoLoosePropsNonOps? || k.EspEnabled? || k.WizAuthoringAnnotation?
  }

  lemma EarlyFlags(top: Top, k: Key)
    requires FlagShown(DEFAULT_FORM, k).Some? && IsEarlyFlag(k)
    ensures FlagShown(Viewed(top), k) == Some(ReadBool(Slot(top, k), FlagShown(DEFAULT_FORM, k).value))
  {
    hide Slot, ReadString, ReadBool, ReadInt, ReadOverflow, ReadRooms, ReadFloodKill, ReadSoundLimit, ReadPasswordSecurity;
  }

  lemma LateFlags(top: Top, k: Key)
    requires FlagShown(DEFAULT_FORM, k).Some? && !IsEarlyFlag(k)
    ensures FlagShown(Viewed(top), k) == Some(ReadBool(Slot(top, k), FlagShown(DEFAULT_FORM, k).value))
  {
    hide Slot, ReadString, ReadBool, ReadInt, ReadOverflow, ReadRooms, ReadFloodKill, ReadSoundLimit, ReadPasswordSecurity;
  }

  /** A boolean is shown as it is; any other value as the flag of an empty file. */
  lemma FlagRead(top: Top, k: Key)
    requires FlagShown(DEFAULT_FORM, k).Some?
    ensures forall b :: Slot(top, k) == Some(Bool(b)) ==> FlagShown(Viewed(top), k) == Some(b)
    ensures (forall b :: Slot(top, k) != Some(Bool(b))) ==> FlagShown(Viewed(top), k) == FlagShown(DEFAULT_FORM, k)
  {
    hide Slot, Viewed, FlagShown;
    if IsEarlyFlag(k) {
      EarlyFlags(top, k);
    } else {
      LateFlags(top, k);
    }
    var v, absent := Slot(top, k), FlagShown(DEFAULT_FORM, k).value;
    assert forall b :: v == Some(Bool(b)) ==> ReadBool(v, absent) == b;
    assert (forall b :: v != Some(Bool(b))) ==> ReadBool(v, absent) == absent by {
      if v.Some? && v.value.Bool? {
        assert v == Some(Bool(v.value.b));
      }
    }
  }

  // ---------- Choices ----------

  function TextOf(v: Option<Json>): bytes {
    match v
    case Some(Str(s)) => s
    case _ => ""
  }

  /** A choice is what its text says; a value that is no text says nothing. */
  lemma ChoicesRead(top: Top)
    ensures var shown := Viewed(top);
            && ChoosesRoomAnnotations(TextOf(Slot(top, RoomAnnotations)), shown.roomAnnotations)
            && ChoosesWizAuthoring(TextOf(Slot(top, WizAuthoring)), shown.wizAuthoring)
            && ChoosesMediaManagerRank(TextOf(Slot(top, MediaManagerRank)), shown.mediaManagerRank)
            && ChoosesMediaUploadRank(TextOf(Slot(top, MediaUploadConfigRank)), shown.mediaUploadConfigRank)
  {
    hide Slot, ReadBool, ReadInt, ReadOverflow, ReadRooms, ReadFloodKill, ReadSoundLimit, ReadPasswordSecurity, Says, SaysNone;
    hide NormalRoomAnnotations, NormalWizAuthoring, NormalMediaManagerRank, NormalMediaUploadRank, Trim;
    hide ChoosesRoomAnnotations, ChoosesWizAuthoring, ChoosesMediaManagerRank, ChoosesMediaUploadRank;
    RoomAnnotationsText(TextOf(Slot(top, RoomAnnotations)));
    WizAuthoringText(TextOf(Slot(top, WizAuthoring)));
    MediaManagerRankText(TextOf(Slot(top, MediaManagerRank)));
    MediaUploadRankText(TextOf(Slot(top, MediaUploadConfigRank)));
    NothingTrimmed();
  }

  lemma NothingTrimmed()
    ensures Trim("") == ""
  {
  }

  lemma RoomAnnotationsText(s: bytes)
    ensures ChoosesRoomAnnotations(s, NormalRoomAnnotations(Trim(s)))
  {
    hide Trim, ToLower, NormalRoomAnnotations;
    TrimTwice(s);
    RoomAnnotationsChosen(Trim(s));
  }

  lemma WizAuthoringText(s: bytes)
    ensures ChoosesWizAuthoring(s, NormalWizAuthoring(Trim(s)))
  {
    hide Trim, ToLower, NormalWizAuthoring;
    TrimTwice(s);
    WizAuthoringChosen(Trim(s));
  }

  lemma MediaManagerRankText(s: bytes)
    ensures ChoosesMediaManagerRank(s, NormalMediaManagerRank(Trim(s)))
  {
    hide Trim, ToLower, NormalMediaManagerRank;
    TrimTwice(s);
    MediaManagerRankChosen(Trim(s));
  }

  lemma MediaUploadRankText(s: bytes)
    ensures ChoosesMediaUploadRank(s, NormalMediaUploadRank(Trim(s)))
  {
    hide Trim, ToLower, NormalMediaUploadRank;
    TrimTwice(s);
    MediaUploadRankChosen(Trim(s));
  }

  // ---------- Records ----------

  // A field that is absent or null says zero or off.

  predicate NumberSays(m: map<Key, Json>, k: Key, n: int64) {
    if k in m && m[k] != Null then m[k] == Int(n) else n == 0
  }

  predicate FlagSays(m: map<Key, Json>, k: Key, b: bool) {
    if k in m && m[k] != Null then m[k] == Bool(b) else !b
  }

  ghost predicate NoNumber(m: map<Key, Json>, k: Key) {
    forall n: int64 :: !NumberSays(m, k, n)
  }

  ghost predicate NoFlag(m: map<Key, Json>, k: Key) {
    forall b :: !FlagSays(m, k, b)
  }

  lemma FieldNumber(m: map<Key, Json>, k: Key)
    ensures NoNumber(m, k) <==> !IntFieldOk(m, k)
    ensures forall n: int64 :: NumberSays(m, k, n) ==> IntField(m, k) == n && IntFieldOk(m, k)
  {
    if IntFieldOk(m, k) {
      assert NumberSays(m, k, IntField(m, k));
    }
  }

  lemma FieldFlag(m: map<Key, Json>, k: Key)
    ensures NoFlag(m, k) <==> !BoolFieldOk(m, k)
    ensures forall b :: FlagSays(m, k, b) ==> BoolField(m, k) == b && BoolFieldOk(m, k)
  {
    if BoolFieldOk(m, k) {
      assert FlagSays(m, k, BoolField(m, k));
    }
  }

  predicate SoundSays(m: map<Key, Json>, sl: SoundLimit) {
    FlagSays(m, Enabled, sl.enabled) && NumberSays(m, Times, sl.times) && NumberSays(m, Timeframe, sl.timeframe)
  }

  /** A sound limit is shown with positive numbers; a field of the wrong type spoils the whole record. */
  lemma SoundRead(top: Top, m: map<Key, Json>)
    requires Slot(top, SoundLimitKey) == Some(Obj(m))
    ensures var shown := Viewed(top).soundLimit;
            && (forall sl :: SoundSays(m, sl) ==>
                  && shown.enabled == sl.enabled
                  && shown.times == (if sl.times > 0 then sl.times else 10)
                  && shown.timeframe == if sl.timeframe > 0 then sl.timeframe else 60)
            && (NoFlag(m, Enabled) || NoNumber(m, Times) || NoNumber(m, Timeframe) ==> shown == SoundLimit(true, 10, 60))
  {
    hide ReadString, ReadBool, ReadInt, ReadOverflow, ReadRooms, ReadFloodKill, ReadPasswordSecurity, Slot;
    hide IntFieldOk, IntField, BoolFieldOk, BoolField, NoFlag, NoNumber, FlagSays, NumberSays;
    FieldFlag(m, Enabled);
    FieldNumber(m, Times);
    FieldNumber(m, Timeframe);
  }

  predicate PasswordSays(m: map<Key, Json>, ps: PasswordSecurity) {
    && NumberSays(m, MinLength, ps.minLength) && FlagSays(m, RequireNumber, ps.requireNumber)
    && FlagSays(m, RequireSymbol, ps.requireSymbol) && FlagSays(m, RequireUpper, ps.requireUpper)
    && FlagSays(m, RequireLower, ps.requireLower)
  }

  predicate IsRule(k: Key) {
    k in {RequireNumber, RequireSymbol, RequireUpper, RequireLower}
  }

  /** Password rules are shown as they are written, too short a length included. */
  lemma PasswordRead(top: Top, m: map<Key, Json>)
    requires Slot(top, PasswordSecurityKey) == Some(Obj(m))
    ensures var shown := Viewed(top).passwordSecurity;
            && (forall ps :: PasswordSays(m, ps) ==> shown == ps)
            && ((NoNumber(m, MinLength) || exists k :: IsRule(k) && NoFlag(m, k)) ==>
                  shown == PasswordSecurity(8, true, false, false, false))
  {
    hide ReadString, ReadBool, ReadInt, ReadOverflow, ReadRooms, ReadFloodKill, ReadSoundLimit, Slot;
    hide IntFieldOk, IntField, BoolFieldOk, BoolField, NoFlag, NoNumber, FlagSays, NumberSays;
    FieldNumber(m, MinLength);
    FieldFlag(m, RequireNumber);
    FieldFlag(m, RequireSymbol);
    FieldFlag(m, RequireUpper);
    FieldFlag(m, RequireLower);
  }

  predicate FloodKillSays(m: map<Key, Json>, fk: FloodKill) {
    && FlagSays(m, Enabled, fk.enabled) && NumberSays(m, Time, fk.time) && NumberSays(m, Move, fk.move)
    && NumberSays(m, Chat, fk.chat) && NumberSays(m, Whisper, fk.whisper) && NumberSays(m, Esp, fk.esp)
    && NumberSays(m, Page, fk.page) && NumberSays(m, Prop, fk.prop) && NumberSays(m, PropDrop, fk.propDrop)
    && NumberSays(m, Draw, fk.draw) && NumberSays(m, Username, fk.username)
  }

  predicate IsFloodNumber(k: Key) {
    k in {Time, Move, Chat, Whisper, Esp, Page, Prop, PropDrop, Draw, Username}
  }

  /** Flood limits are shown as they are written. */
  lemma FloodKillRead(top: Top, m: map<Key, Json>)
    requires Slot(top, FloodKillLimits) == Some(Obj(m))
    ensures var shown := Viewed(top).floodKill;
            && (forall fk :: FloodKillSays(m, fk) ==> shown == fk)
            && ((NoFlag(m, Enabled) || exists k :: IsFloodNumber(k) && NoNumber(m, k)) ==>
                  shown == FloodKill(false, 0, 0, 0, 0, 0, 0, 0, 0, 0, 0))
  {
    hide ReadString, ReadBool, ReadInt, ReadOverflow, ReadRooms, ReadFloodKill, ReadSoundLimit, ReadPasswordSecurity, Slot;
    hide NoFlag, NoNumber, FloodKillSays, IsFloodNumber;
    FloodKillOfObject(m);
  }

  lemma FloodKillOfObject(m: map<Key, Json>)
    ensures forall fk :: FloodKillSays(m, fk) ==> ReadFloodKill(Some(Obj(m))) == fk
    ensures (NoFlag(m, Enabled) || exists k :: IsFloodNumber(k) && NoNumber(m, k)) ==>
              ReadFloodKill(Some(Obj(m))) == FloodKill(false, 0, 0, 0, 0, 0, 0, 0, 0, 0, 0)
  {
    hide IntFieldOk, IntField, BoolFieldOk, BoolField, NoFlag, NoNumber, FlagSays, NumberSays;
    FieldFlag(m, Enabled);
    forall k ensures NoNumber(m, k) <==> !IntFieldOk(m, k)
             ensures forall n: int64 :: NumberSays(m, k, n) ==> IntField(m, k) == n && IntFieldOk(m, k) {
      FieldNumber(m, k);
    }
  }

  // ---------- Rooms ----------

  /** The rooms of a list in their order; a null element is room 0, and numbers that are no rooms are passed over. */
  predicate ListSays(js: seq<Json>, ns: seq<int64>) {
    |js| == |ns| && forall i :: 0 <= i < |js| ==> js[i] == Int(ns[i]) || (js[i] == Null && ns[i] == 0)
  }

  function Kept(ns: seq<int64>): seq<int> {
    if ns == [] then []
    else Kept(ns[..|ns| - 1]) + if -32768 <= ns[|ns| - 1] <= 32767 then [ns[|ns| - 1]] else []
  }

  lemma {:induction false} RoomsOnlyAppend(a: seq<int>, n: int)
    ensures RoomsOnly(a + [n]) == RoomsOnly(a) + if -32768 <= n <= 32767 then [n] else []
  {
    if a == [] {
      assert [] + [n] == [n] && [n][1..] == [];
    } else {
      assert (a + [n])[0] == a[0] && (a + [n])[1..] == a[1..] + [n];
      RoomsOnlyAppend(a[1..], n);
    }
  }

  lemma {:induction false} ElementsSay(js: seq<Json>, ns: seq<int64>)
    requires ListSays(js, ns)
    ensures Elements(js) == ns
  {
    if js != [] {
      ElementsSay(js[1..], ns[1..]);
      assert ns == [ns[0]] + ns[1..];
    }
  }

  lemma {:induction false} KeptIsRoomsOnly(ns: seq<int64>)
    ensures RoomsOnly(ns) == Kept(ns)
  {
    if ns != [] {
      var a: seq<int> := ns[..|ns| - 1];
      assert ns == a + [ns[|ns| - 1]];
      RoomsOnlyAppend(a, ns[|ns| - 1]);
      KeptIsRoomsOnly(ns[..|ns| - 1]);
    }
  }

  lemma {:induction false} NumbersOf(js: seq<Json>) returns (ns: seq<int64>)
    requires forall j :: j in js ==> IsIntElement(j)
    ensures ListSays(js, ns)
  {
    if js == [] {
      ns := [];
    } else {
      assert js[0] in js && forall j :: j in js[1..] ==> j in js;
      ns := NumbersOf(js[1..]);
      ns := [if js[0].Int? then js[0].n else 0] + ns;
      assert forall i :: 0 < i < |js| ==> js[i] == js[1..][i - 1] && ns[i] == ns[1..][i - 1];
    }
  }

  /** An overflow list shows its rooms in order; with an element of another type it shows none. */
  lemma OverflowRead(top: Top, js: seq<Json>)
    requires Slot(top, OverflowRooms) == Some(Arr(js))
    ensures var shown := Viewed(top).overflowRooms;
            && (forall ns: seq<int64> :: ListSays(js, ns) ==> shown == Kept(ns))
            && ((forall ns: seq<int64> :: !ListSays(js, ns)) ==> shown == [])
  {
    hide ReadString, ReadBool, ReadInt, ReadFloodKill, ReadRooms, ReadSoundLimit, ReadPasswordSecurity, Slot, Kept;
    hide ListSays, IsIntElement, RoomsOnly, Elements;
    forall ns: seq<int64> | ListSays(js, ns)
      ensures Viewed(top).overflowRooms == Kept(ns)
    {
      ElementsSay(js, ns);
      SaidIsInts(js, ns);
      KeptIsRoomsOnly(ns);
    }
    if forall j :: j in js ==> IsIntElement(j) {
      var ns := NumbersOf(js);
    }
  }

  lemma SaidIsInts(js: seq<Json>, ns: seq<int64>)
    requires ListSays(js, ns)
    ensures forall j :: j in js ==> IsIntElement(j)
  {
  }

  /** The key is a room's number in decimal, with or without a sign, inside white space. */
  ghost predicate KeyNames(k: Key, n: int) {
    exists s, left, sign, ds, right ::
      IsName(k, s) && IsPaddedNumber(s, left, sign, ds, right) && n == Signed(sign, Worth(ds, 10)) && -32768 <= n <= 32767
  }

  predicate IsName(k: Key, s: bytes) {
    k.Text? && k.s == s
  }

  lemma RoomNamed(k: Key, n: int)
    ensures RoomOf(k) == Some(n) <==> KeyNames(k, n)
  {
    hide Trim, Atoi, Worth, AllSpace, AreDigits, IsSpelled;
    if k.Text? {
      if RoomOf(k) == Some(n) {
        var left, right := TrimParts(k.s);
        var sign, ds := AtoiAccepts(Trim(k.s));
        assert IsName(k, k.s) && IsPaddedNumber(k.s, left, sign, ds, right);
      }
      if KeyNames(k, n) {
        var s, left, sign, ds, right :|
          IsName(k, s) && IsPaddedNumber(s, left, sign, ds, right) && n == Signed(sign, Worth(ds, 10)) && -32768 <= n <= 32767;
        PaddedTrimmed(s, left, sign, ds, right);
        AtoiReads(sign, ds);
      }
    }
  }

  predicate SwitchesOn(m: map<Key, Json>, k: Key) {
    k in m && m[k] == Bool(true)
  }

  predicate IsSwitch(j: Json) {
    j == Null || j == Bool(true) || j == Bool(false)
  }

  lemma RoomsOfObject(m: map<Key, Json>)
    ensures (forall k :: k in m ==> IsSwitch(m[k])) ==>
              forall n :: n in ReadRooms(Some(Obj(m))) <==> exists k :: SwitchesOn(m, k) && KeyNames(k, n)
    ensures (exists k :: k in m && !IsSwitch(m[k])) ==> ReadRooms(Some(Obj(m))) == {}
  {
    hide RoomOf, KeyNames, IsSpelled, RoomsOn;
    RoomsOnMeaning(m);
    forall k, n ensures RoomOf(k) == Some(n) <==> KeyNames(k, n) {
      RoomNamed(k, n);
    }
    forall n ensures n in RoomsOn(m) <==> exists k :: SwitchesOn(m, k) && KeyNames(k, n) {
      if n in RoomsOn(m) {
        var k :| TurnsOn(m, k, n);
        assert SwitchesOn(m, k) && KeyNames(k, n);
      }
      if k :| SwitchesOn(m, k) && KeyNames(k, n) {
        assert TurnsOn(m, k, n);
      }
    }
  }

  predicate IsRoomKey(key: Key) {
    key == PropFreezeRooms || key == RatbotsAllowedRooms
  }

  function RoomsShown(f: Form<set<int>>, key: Key): set<int> {
    if key == PropFreezeRooms then f.propFreezeRooms else f.ratbotsAllowedRooms
  }

  /** A room object shows exactly the rooms whose keys are switched on; with a value that is no switch it shows
      none, like anything that is no object. */
  lemma RoomsRead(top: Top, key: Key)
    requires IsRoomKey(key)
    ensures forall m :: Slot(top, key) == Some(Obj(m)) && (forall k :: k in m ==> IsSwitch(m[k])) ==>
              forall n :: n in RoomsShown(Viewed(top), key) <==> exists k :: SwitchesOn(m, k) && KeyNames(k, n)
    ensures forall m :: Slot(top, key) == Some(Obj(m)) && (exists k :: k in m && !IsSwitch(m[k])) ==>
              RoomsShown(Viewed(top), key) == {}
    ensures (forall m :: Slot(top, key) != Some(Obj(m))) ==> RoomsShown(Viewed(top), key) == {}
  {
    hide ReadString, ReadBool, ReadInt, ReadOverflow, ReadFloodKill, ReadSoundLimit, ReadPasswordSecurity, Slot;
    hide ReadRooms, KeyNames, IsSwitch, SwitchesOn;
    forall m | Slot(top, key) == Some(Obj(m))
      ensures (forall k :: k in m ==> IsSwitch(m[k])) ==>
                forall n :: n in RoomsShown(Viewed(top), key) <==> exists k :: SwitchesOn(m, k) && KeyNames(k, n)
      ensures (exists k :: k in m && !IsSwitch(m[k])) ==> RoomsShown(Viewed(top), key) == {}
    {
      RoomsOfObject(m);
    }
    NoObject(Slot(top, key));
  }

  lemma NoObject(v: Option<Json>)
    ensures (forall m :: v != Some(Obj(m))) ==> ReadRooms(v) == {}
  {
    if v.Some? && v.value.Obj? {
      assert v == Some(Obj(v.value.fields));
    }
  }
}
