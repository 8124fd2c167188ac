/** Laws of the serverprefs lens: put-get, put-put and the frame of foreign keys
    (internal/serverprefsform/map.go, preserve.go). */
module ServerPrefsLaws {
  import opened Wrappers
  import opened Bytes
  import opened Numbers
  import opened ServerPrefsLens

  // ---------- Frame and put-put ----------

  lemma SameSlots(a: Top, b: Top)
    requires forall k :: Slot(a, k) == Slot(b, k)
    ensures a == b
  {
    forall k ensures k in a <==> k in b {
      assert Slot(a, k) == Slot(b, k);
    }
    forall k | k in a ensures a[k] == b[k] {
      assert Slot(a, k) == Slot(b, k);
    }
  }

  lemma PreservedNotManaged(k: Key)
    requires Preserved(k)
    ensures !Managed(k)
  {
  }

  /** A save leaves every key alone that is neither guided nor the version; the preserved keys are such. */
  lemma Frame(orig: Top, f: Form<seq<int>>, top: Top, k: Key)
    requires IsApplied(orig, f, top)
    ensures !Managed(k) ==> Slot(top, k) == Slot(orig, k)
    ensures Preserved(k) ==> Slot(top, k) == Slot(orig, k)
    ensures Slot(top, Version) == Some(Int(1))
  {
    hide Asked, Managed, Preserved;
    assert Slot(top, k) == if Managed(k) then Asked(f, k) else Slot(orig, k);
    assert Slot(top, Version) == if Managed(Version) then Asked(f, Version) else Slot(orig, Version);
    if Preserved(k) {
      PreservedNotManaged(k);
    }
    VersionAsked(f);
  }

  lemma VersionAsked(f: Form<seq<int>>)
    ensures Managed(Version) && Asked(f, Version) == Some(Int(1))
  {
    hide TextValue, FlagValue, ChoiceValue, OverflowValue, RoomsValue, FloodKillValue, SoundLimitValue, PasswordValue;
  }

  /** The later of two saves wins entirely: saving f and then g is saving g alone. */
  lemma PutPut(orig: Top, f: Form<seq<int>>, g: Form<seq<int>>, once: Top, twice: Top, direct: Top)
    requires IsApplied(orig, f, once) && IsApplied(once, g, twice) && IsApplied(orig, g, direct)
    ensures twice == direct
  {
    hide Asked, Managed, Slot;
    forall k ensures Slot(twice, k) == Slot(direct, k) {
      assert Slot(once, k) == if Managed(k) then Asked(f, k) else Slot(orig, k);
    }
    SameSlots(twice, direct);
  }

  // ---------- Put-get, one kind of field at a time ----------

  lemma TextRead(s: bytes)
    ensures ReadString(TextValue(s)) == Trim(s)
  {
    hide Trim;
    TrimTwice(s);
  }

  lemma FlagRead(b: bool, d: bool)
    ensures ReadBool(FlagValue(b, d), d) == b
  {
  }

  /** A spelling that is its own normal form. */
  predicate Plain(s: bytes) {
    Trim(s) == s && ToLower(s) == s
  }

  lemma PlainWord(s: bytes)
    requires forall i :: 0 <= i < |s| ==> 'a' <= s[i] <= 'z'
    ensures Plain(s)
  {
    TrimFixed(s);
    assert ToLower(s) == s;
  }

  lemma RoomAnnotationsRead(s: bytes)
    ensures var v := NormalRoomAnnotations(s); NormalRoomAnnotations(ReadString(ChoiceValue(v, "everyone"))) == v
  {
    hide Trim, ToLower;
    PlainWord("off");
    PlainWord("wizards");
    PlainWord("");
  }

  lemma WizAuthoringRead(s: bytes)
    ensures var v := NormalWizAuthoring(s); NormalWizAuthoring(ReadString(ChoiceValue(v, "on"))) == v
  {
    hide Trim, ToLower;
    PlainWord("off");
    PlainWord("bless");
    PlainWord("godonly");
    PlainWord("");
  }

  lemma MediaManagerRankRead(s: bytes)
    ensures var v := NormalMediaManagerRank(s); NormalMediaManagerRank(ReadString(ChoiceValue(v, "owners"))) == v
  {
    hide Trim, ToLower;
    PlainWord("wizards");
    PlainWord("gods");
    PlainWord("");
  }

  lemma MediaUploadRankRead(s: bytes)
    ensures var v := NormalMediaUploadRank(s); NormalMediaUploadRank(ReadString(ChoiceValue(v, "owners"))) == v
  {
    hide Trim, ToLower;
    PlainWord("off");
    PlainWord("wizards");
    PlainWord("gods");
    PlainWord("");
  }

  lemma {:induction false} RoomsOnlyFixed(ids: seq<int>)
    requires forall n :: n in ids ==> IsRoom(n)
    ensures RoomsOnly(ids) == ids
  {
    if ids != [] {
      assert ids == [ids[0]] + ids[1..];
      RoomsOnlyFixed(ids[1..]);
    }
  }

  lemma {:induction false} ElementsRead(ids: seq<int>)
    ensures Elements(Ints(ids)) == ids
  {
    if ids != [] {
      assert Ints(ids)[1..] == Ints(ids[1..]);
      ElementsRead(ids[1..]);
      assert ids == [ids[0]] + ids[1..];
    }
  }

  lemma OverflowRead(ids: seq<int>)
    ensures ReadOverflow(OverflowValue(ids)) == RoomsOnly(ids)
  {
    hide RoomsOnly, Elements;
    var r := RoomsOnly(ids);
    RoomsOnlyFixed(r);
    ElementsRead(r);
    forall j | j in Ints(r) ensures IsIntElement(j) {
      var i :| 0 <= i < |r| && Ints(r)[i] == j;
      assert r[i] in r;
    }
  }

  lemma RoomKeyRead(n: int)
    requires IsRoom(n)
    ensures RoomOf(RoomName(n)) == Some(n)
  {
    hide Atoi, Trim, Digits;
    TrimFixed(Dec(n));
    DecRoundTrip(n);
  }

  lemma RoomsRead(ids: seq<int>)
    ensures ReadRooms(RoomsValue(ids)) == RoomSet(ids)
  {
    hide IsSpelled;
    hide RoomOf, Dec, RoomsOnly;
    var m := RoomObject(RoomSet(ids));
    assert forall k :: k in m ==> m[k] == Bool(true);
    RoomsOnMeaning(m);
    forall n ensures n in RoomsOn(m) <==> n in RoomSet(ids) {
      if n in RoomSet(ids) {
        RoomKeyRead(n);
        assert RoomName(n) in RoomKeys(RoomSet(ids));
        assert TurnsOn(m, RoomName(n), n);
      }
      if n in RoomsOn(m) {
        var k :| TurnsOn(m, k, n);
        var j :| j in RoomSet(ids) && k == RoomName(j);
        RoomKeyRead(j);
      }
    }
    assert RoomsOn(m) == RoomSet(ids);
    if RoomsOnly(ids) == [] {
      assert forall n :: n in RoomSet(ids) ==> n in RoomsOnly(ids);
      assert RoomSet(ids) == {};
    }
  }

  lemma FloodKillRead(fk: FloodKill)
    ensures ReadFloodKill(FloodKillValue(fk)) == fk
  {
    hide FloodKillFields, FloodKillOk, FloodKillObject;
    if fk != NO_FLOOD_KILL {
      FloodKillIntsRead(fk);
      FloodKillBack(fk);
    }
  }

  lemma FloodKillIntsRead(fk: FloodKill)
    ensures FloodKillOk(FloodKillObject(fk))
  {
  }

  lemma FloodKillBack(fk: FloodKill)
    ensures FloodKillFields(FloodKillObject(fk)) == fk
  {
  }

  lemma SoundLimitRead(sl: SoundLimit)
    ensures ReadSoundLimit(SoundLimitValue(sl)) == NormalSound(sl)
  {
  }

  lemma PasswordRead(ps: PasswordSecurity)
    ensures ReadPasswordSecurity(PasswordValue(ps)) == NormalPassword(ps)
  {
  }

  // ---------- Put-get ----------

  /** The managed slots of a saved file are what the form asks. */
  lemma SlotAsked(orig: Top, f: Form<seq<int>>, top: Top, k: Key)
    requires IsApplied(orig, f, top) && Managed(k)
    ensures Slot(top, k) == Asked(f, k)
  {
    hide Asked;
  }

  lemma AllManaged()
    ensures Managed(Website) && Managed(YpLanguage) && Managed(YpCategory) && Managed(YpDescription) && Managed(TimeoutRoomId) && Managed(AutopurgeBanlistDays) && Managed(UnicodeNames)
    ensures Managed(Unicode) && Managed(AltNames) && Managed(NoLoosePropsNonOps) && Managed(EspEnabled) && Managed(WizAuthoringAnnotation) && Managed(NotifyLogon) && Managed(NotifyLogoff)
    ensures Managed(PublicMedia) && Managed(SecureProps) && Managed(MediaManagerEnabled) && Managed(LegacyClients) && Managed(RoomAnnotations) && Managed(WizAuthoring) && Managed(MediaManagerRank)
    ensures Managed(MediaUploadConfigRank) && Managed(OverflowRooms) && Managed(PropFreezeRooms) && Managed(RatbotsAllowedRooms) && Managed(FloodKillLimits) && Managed(SoundLimitKey) && Managed(PasswordSecurityKey)
    ensures Managed(Version)
  {
  }

  lemma NameFlagsShown(orig: Top, f: Form<seq<int>>, top: Top)
    requires IsApplied(orig, f, top)
    ensures ReadBool(Slot(top, UnicodeNames), false) == f.unicodeNames
    ensures ReadBool(Slot(top, Unicode), true) == f.unicodeFull
    ensures ReadBool(Slot(top, AltNames), true) == f.altNames
    ensures ReadBool(Slot(top, NoLoosePropsNonOps), false) == f.noLoosePropsNonOps
    ensures ReadBool(Slot(top, EspEnabled), true) == f.espEnabled
    ensures ReadBool(Slot(top, WizAuthoringAnnotation), true) == f.wizAuthoringAnnotation
  {
    hide Trim, TextValue, FlagValue, ChoiceValue, OverflowValue, RoomsValue, FloodKillValue, SoundLimitValue, PasswordValue;
    hide Slot, IsApplied, ReadString, ReadBool, NormalRoomAnnotations, NormalWizAuthoring, NormalMediaManagerRank;
    hide NormalMediaUploadRank, ReadOverflow, ReadRooms, ReadFloodKill, ReadSoundLimit, ReadPasswordSecurity, Managed;
    AllManaged();
    SlotAsked(orig, f, top, UnicodeNames);
    FlagRead(f.unicodeNames, false);
    SlotAsked(orig, f, top, Unicode);
    FlagRead(f.unicodeFull, true);
    SlotAsked(orig, f, top, AltNames);
    FlagRead(f.altNames, true);
    SlotAsked(orig, f, top, NoLoosePropsNonOps);
    FlagRead(f.noLoosePropsNonOps, false);
    SlotAsked(orig, f, top, EspEnabled);
    FlagRead(f.espEnabled, true);
    SlotAsked(orig, f, top, WizAuthoringAnnotation);
    FlagRead(f.wizAuthoringAnnotation, true);
  }

  lemma MediaFlagsShown(orig: Top, f: Form<seq<int>>, top: Top)
    requires IsApplied(orig, f, top)
    ensures ReadBool(Slot(top, NotifyLogon), false) == f.notifyLogon
    ensures ReadBool(Slot(top, NotifyLogoff), false) == f.notifyLogoff
    ensures ReadBool(Slot(top, PublicMedia), true) == f.publicMedia
    ensures ReadBool(Slot(top, SecureProps), false) == f.secureProps
    ensures ReadBool(Slot(top, MediaManagerEnabled), true) == f.mediaManagerEnabled
    ensures ReadBool(Slot(top, LegacyClients), false) == f.legacyClientsBlock
  {
    hide Trim, TextValue, FlagValue, ChoiceValue, OverflowValue, RoomsValue, FloodKillValue, SoundLimitValue, PasswordValue;
    hide Slot, IsApplied, ReadString, ReadBool, NormalRoomAnnotations, NormalWizAuthoring, NormalMediaManagerRank;
    hide NormalMediaUploadRank, ReadOverflow, ReadRooms, ReadFloodKill, ReadSoundLimit, ReadPasswordSecurity, Managed;
    AllManaged();
    SlotAsked(orig, f, top, NotifyLogon);
    FlagRead(f.notifyLogon, false);
    SlotAsked(orig, f, top, NotifyLogoff);
    FlagRead(f.notifyLogoff, false);
    SlotAsked(orig, f, top, PublicMedia);
    FlagRead(f.publicMedia, true);
    SlotAsked(orig, f, top, SecureProps);
    FlagRead(f.secureProps, false);
    SlotAsked(orig, f, top, MediaManagerEnabled);
    FlagRead(f.mediaManagerEnabled, true);
    SlotAsked(orig, f, top, LegacyClients);
    FlagRead(f.legacyClientsBlock, false);
  }

  lemma WordsShown(orig: Top, f: Form<seq<int>>, top: Top)
    requires IsApplied(orig, f, top)
    ensures ReadString(Slot(top, Website)) == Trim(f.website)
    ensures ReadString(Slot(top, YpLanguage)) == Trim(f.ypLanguage)
    ensures ReadString(Slot(top, YpCategory)) == Trim(f.ypCategory)
    ensures ReadString(Slot(top, YpDescription)) == Trim(f.ypDescription)
    ensures NormalRoomAnnotations(ReadString(Slot(top, RoomAnnotations))) == NormalRoomAnnotations(f.roomAnnotations)
    ensures NormalWizAuthoring(ReadString(Slot(top, WizAuthoring))) == NormalWizAuthoring(f.wizAuthoring)
    ensures NormalMediaManagerRank(ReadString(Slot(top, MediaManagerRank))) == NormalMediaManagerRank(f.mediaManagerRank)
    ensures NormalMediaUploadRank(ReadString(Slot(top, MediaUploadConfigRank))) == NormalMediaUploadRank(f.mediaUploadConfigRank)
  {
    hide Trim, TextValue, FlagValue, ChoiceValue, OverflowValue, RoomsValue, FloodKillValue, SoundLimitValue, PasswordValue;
    hide Slot, IsApplied, ReadString, ReadBool, NormalRoomAnnotations, NormalWizAuthoring, NormalMediaManagerRank;
    hide NormalMediaUploadRank, ReadOverflow, ReadRooms, ReadFloodKill, ReadSoundLimit, ReadPasswordSecurity, Managed;
    AllManaged();
    SlotAsked(orig, f, top, Website);
    TextRead(f.website);
    SlotAsked(orig, f, top, YpLanguage);
    TextRead(f.ypLanguage);
    SlotAsked(orig, f, top, YpCategory);
    TextRead(f.ypCategory);
    SlotAsked(orig, f, top, YpDescription);
    TextRead(f.ypDescription);
    SlotAsked(orig, f, top, RoomAnnotations);
    RoomAnnotationsRead(f.roomAnnotations);
    SlotAsked(orig, f, top, WizAuthoring);
    WizAuthoringRead(f.wizAuthoring);
    SlotAsked(orig, f, top, MediaManagerRank);
    MediaManagerRankRead(f.mediaManagerRank);
    SlotAsked(orig, f, top, MediaUploadConfigRank);
    MediaUploadRankRead(f.mediaUploadConfigRank);
  }

  lemma NumbersShown(orig: Top, f: Form<seq<int>>, top: Top)
    requires IsApplied(orig, f, top)
    ensures ReadInt(Slot(top, TimeoutRoomId)) == f.timeoutRoomId
    ensures ReadInt(Slot(top, AutopurgeBanlistDays)) == Positive(f.autopurgeBanlistDays, 0)
  {
    hide Trim, TextValue, FlagValue, ChoiceValue, OverflowValue, RoomsValue, FloodKillValue, SoundLimitValue, PasswordValue;
    hide Slot, IsApplied, ReadString, ReadBool, NormalRoomAnnotations, NormalWizAuthoring, NormalMediaManagerRank;
    hide NormalMediaUploadRank, ReadOverflow, ReadRooms, ReadFloodKill, ReadSoundLimit, ReadPasswordSecurity, Managed;
    AllManaged();
    SlotAsked(orig, f, top, TimeoutRoomId);
    SlotAsked(orig, f, top, AutopurgeBanlistDays);
  }

  lemma RoomsShown(orig: Top, f: Form<seq<int>>, top: Top)
    requires IsApplied(orig, f, top)
    ensures ReadOverflow(Slot(top, OverflowRooms)) == RoomsOnly(f.overflowRooms)
    ensures ReadRooms(Slot(top, PropFreezeRooms)) == RoomSet(f.propFreezeRooms)
    ensures ReadRooms(Slot(top, RatbotsAllowedRooms)) == RoomSet(f.ratbotsAllowedRooms)
  {
    hide Trim, TextValue, FlagValue, ChoiceValue, OverflowValue, RoomsValue, FloodKillValue, SoundLimitValue, PasswordValue;
    hide Slot, IsApplied, ReadString, ReadBool, NormalRoomAnnotations, NormalWizAuthoring, NormalMediaManagerRank;
    hide NormalMediaUploadRank, ReadOverflow, ReadRooms, ReadFloodKill, ReadSoundLimit, ReadPasswordSecurity, Managed;
    AllManaged();
    SlotAsked(orig, f, top, OverflowRooms);
    OverflowRead(f.overflowRooms);
    SlotAsked(orig, f, top, PropFreezeRooms);
    RoomsRead(f.propFreezeRooms);
    SlotAsked(orig, f, top, RatbotsAllowedRooms);
    RoomsRead(f.ratbotsAllowedRooms);
  }

  lemma LimitsShown(orig: Top, f: Form<seq<int>>, top: Top)
    requires IsApplied(orig, f, top)
    ensures ReadFloodKill(Slot(top, FloodKillLimits)) == f.floodKill
    ensures ReadSoundLimit(Slot(top, SoundLimitKey)) == NormalSound(f.soundLimit)
    ensures ReadPasswordSecurity(Slot(top, PasswordSecurityKey)) == NormalPassword(f.passwordSecurity)
  {
    hide Trim, TextValue, FlagValue, ChoiceValue, OverflowValue, RoomsValue, FloodKillValue, SoundLimitValue, PasswordValue;
    hide Slot, IsApplied, ReadString, ReadBool, NormalRoomAnnotations, NormalWizAuthoring, NormalMediaManagerRank;
    hide NormalMediaUploadRank, ReadOverflow, ReadRooms, ReadFloodKill, ReadSoundLimit, ReadPasswordSecurity, Managed;
    AllManaged();
    SlotAsked(orig, f, top, FloodKillLimits);
    FloodKillRead(f.floodKill);
    SlotAsked(orig, f, top, SoundLimitKey);
    SoundLimitRead(f.soundLimit);
    SlotAsked(orig, f, top, PasswordSecurityKey);
    PasswordRead(f.passwordSecurity);
  }

  /** Put-get: a saved file shows the normal form of what was saved, whatever was in the file before. */
  lemma PutGet(orig: Top, f: Form<seq<int>>, top: Top)
    requires IsApplied(orig, f, top)
    ensures Viewed(top) == Norm(f)
  {
    hide Trim, Slot, IsApplied, ReadString, ReadBool, ReadInt, NormalRoomAnnotations, NormalWizAuthoring, NormalMediaManagerRank;
    hide NormalMediaUploadRank, ReadOverflow, ReadRooms, ReadFloodKill, ReadSoundLimit, ReadPasswordSecurity;
    hide RoomsOnly, RoomSet, NormalSound, NormalPassword, Positive;
    NameFlagsShown(orig, f, top);
    MediaFlagsShown(orig, f, top);
    WordsShown(orig, f, top);
    NumbersShown(orig, f, top);
    RoomsShown(orig, f, top);
    LimitsShown(orig, f, top);
  }

  // ---------- Saving what was shown ----------

  /** What the reader lets through and the writer does not: a negative purge age and a password length
      below one. */
  predicate Writable<Rooms>(f: Form<Rooms>) {
    f.autopurgeBanlistDays >= 0 && f.passwordSecurity.minLength > 0
  }

  lemma RoomsAreRooms(v: Option<Json>)
    ensures forall n :: n in ReadRooms(v) ==> IsRoom(n)
    ensures forall n :: n in ReadOverflow(v) ==> IsRoom(n)
  {
    hide Elements, RoomsOn;
    if v.Some? && v.value.Obj? {
      RoomsOnMeaning(v.value.fields);
    }
  }

  lemma RoomAnnotationsTwice(s: bytes)
    ensures NormalRoomAnnotations(NormalRoomAnnotations(s)) == NormalRoomAnnotations(s)
  {
    hide Trim, ToLower;
    PlainWord("off");
    PlainWord("wizards");
    PlainWord("everyone");
  }

  lemma WizAuthoringTwice(s: bytes)
    ensures NormalWizAuthoring(NormalWizAuthoring(s)) == NormalWizAuthoring(s)
  {
    hide Trim, ToLower;
    PlainWord("on");
    PlainWord("off");
    PlainWord("bless");
    PlainWord("godonly");
  }

  lemma MediaRanksTwice(s: bytes)
    ensures NormalMediaManagerRank(NormalMediaManagerRank(s)) == NormalMediaManagerRank(s)
    ensures NormalMediaUploadRank(NormalMediaUploadRank(s)) == NormalMediaUploadRank(s)
  {
    hide Trim, ToLower;
    PlainWord("off");
    PlainWord("wizards");
    PlainWord("gods");
    PlainWord("owners");
  }

  lemma ReadTrimmed(v: Option<Json>)
    ensures Trim(ReadString(v)) == ReadString(v)
  {
    hide Trim;
    if v.Some? && v.value.Str? {
      TrimTwice(v.value.s);
    } else {
      TrimFixed("");
    }
  }

  lemma SoundIsNormal(v: Option<Json>)
    ensures NormalSound(ReadSoundLimit(v)) == ReadSoundLimit(v)
  {
    hide BoolField, IntField, BoolFieldOk, IntFieldOk;
  }

  /** The texts and choices of a shown form are in normal form already. */
  lemma ShownTexts(top: Top, g: Form<seq<int>>)
    requires InSets(g) == Viewed(top)
    ensures Trim(g.website) == g.website && Trim(g.ypLanguage) == g.ypLanguage
    ensures Trim(g.ypCategory) == g.ypCategory && Trim(g.ypDescription) == g.ypDescription
    ensures NormalRoomAnnotations(g.roomAnnotations) == g.roomAnnotations
    ensures NormalWizAuthoring(g.wizAuthoring) == g.wizAuthoring
    ensures NormalMediaManagerRank(g.mediaManagerRank) == g.mediaManagerRank
    ensures NormalMediaUploadRank(g.mediaUploadConfigRank) == g.mediaUploadConfigRank
    ensures NormalSound(g.soundLimit) == g.soundLimit
  {
    hide Trim, Slot, ReadString, ReadBool, ReadInt, NormalRoomAnnotations, NormalWizAuthoring, NormalMediaManagerRank;
    hide NormalMediaUploadRank, ReadOverflow, ReadRooms, ReadFloodKill, ReadSoundLimit, ReadPasswordSecurity, NormalSound;
    ReadTrimmed(Slot(top, Website));
    ReadTrimmed(Slot(top, YpLanguage));
    ReadTrimmed(Slot(top, YpCategory));
    ReadTrimmed(Slot(top, YpDescription));
    RoomAnnotationsTwice(ReadString(Slot(top, RoomAnnotations)));
    WizAuthoringTwice(ReadString(Slot(top, WizAuthoring)));
    MediaRanksTwice(ReadString(Slot(top, MediaManagerRank)));
    MediaRanksTwice(ReadString(Slot(top, MediaUploadConfigRank)));
    SoundIsNormal(Slot(top, SoundLimitKey));
  }

  /** The room lists of a shown form hold only rooms. */
  lemma ShownRooms(top: Top, g: Form<seq<int>>)
    requires InSets(g) == Viewed(top)
    ensures RoomsOnly(g.overflowRooms) == g.overflowRooms
    ensures RoomSet(g.propFreezeRooms) == (set n | n in g.propFreezeRooms)
    ensures RoomSet(g.ratbotsAllowedRooms) == (set n | n in g.ratbotsAllowedRooms)
  {
    hide Trim, Slot, ReadString, ReadBool, ReadInt, NormalRoomAnnotations, NormalWizAuthoring, NormalMediaManagerRank;
    hide NormalMediaUploadRank, ReadOverflow, ReadRooms, ReadFloodKill, ReadSoundLimit, ReadPasswordSecurity, RoomsOnly;
    RoomsAreRooms(Slot(top, OverflowRooms));
    RoomsOnlyFixed(g.overflowRooms);
    RoomsAreRooms(Slot(top, PropFreezeRooms));
    RoomsAreRooms(Slot(top, RatbotsAllowedRooms));
    OnlyRooms(g.propFreezeRooms, ReadRooms(Slot(top, PropFreezeRooms)));
    OnlyRooms(g.ratbotsAllowedRooms, ReadRooms(Slot(top, RatbotsAllowedRooms)));
  }

  lemma OnlyRooms(ids: seq<int>, rooms: set<int>)
    requires (set n | n in ids) == rooms && forall n :: n in rooms ==> IsRoom(n)
    ensures RoomSet(ids) == (set n | n in ids)
  {
    forall n | n in ids ensures IsRoom(n) {
      assert n in (set m | m in ids);
    }
  }

  /** Saving back an unchanged form shows the same form again exactly when the file held no negative purge
      age and no password length below one: the reader shows those two, the writer does not keep them. */
  lemma ResaveShowsSame(orig: Top, g: Form<seq<int>>, top: Top)
    requires InSets(g) == Viewed(orig) && IsApplied(orig, g, top)
    ensures Viewed(top) == Viewed(orig) <==> Writable(g)
  {
    hide Viewed, Trim, NormalRoomAnnotations, NormalWizAuthoring, NormalMediaManagerRank, NormalMediaUploadRank, RoomsOnly;
    hide RoomSet, NormalSound, IsApplied;
    PutGet(orig, g, top);
    ShownTexts(orig, g);
    ShownRooms(orig, g);
    assert Norm(g) == InSets(g) <==> Positive(g.autopurgeBanlistDays, 0) == g.autopurgeBanlistDays
                                     && NormalPassword(g.passwordSecurity) == g.passwordSecurity;
  }

  /** A file with a negative purge age: its form, saved unchanged, shows an age of 0. */
  lemma ResaveChanges(g: Form<seq<int>>, top: Top)
    requires InSets(g) == Viewed(map[AutopurgeBanlistDays := Int(-1)]) && IsApplied(map[AutopurgeBanlistDays := Int(-1)], g, top)
    ensures g.autopurgeBanlistDays == -1 && Viewed(top).autopurgeBanlistDays == 0
  {
    hide Viewed, IsApplied, Norm;
    var orig: Top := map[AutopurgeBanlistDays := Int(-1)];
    PurgeAgeShown(orig);
    PutGet(orig, g, top);
    PurgeAgeKept(g);
  }

  lemma PurgeAgeShown(top: Top)
    requires top == map[AutopurgeBanlistDays := Int(-1)]
    ensures Viewed(top).autopurgeBanlistDays == -1
  {
    hide ReadString, ReadBool, NormalRoomAnnotations, NormalWizAuthoring, NormalMediaManagerRank, NormalMediaUploadRank;
    hide ReadOverflow, ReadRooms, ReadFloodKill, ReadSoundLimit, ReadPasswordSecurity;
  }

  lemma PurgeAgeKept(g: Form<seq<int>>)
    ensures Norm(g).autopurgeBanlistDays == Positive(g.autopurgeBanlistDays, 0)
  {
    hide Trim, NormalRoomAnnotations, NormalWizAuthoring, NormalMediaManagerRank, NormalMediaUploadRank, RoomsOnly;
    hide RoomSet, NormalSound, NormalPassword;
  }

  // ---------- Files and normal forms ----------

  lemma SameRoomsValue(a: seq<int>, b: seq<int>)
    requires RoomSet(a) == RoomSet(b)
    ensures RoomsValue(a) == RoomsValue(b)
  {
    hide RoomsOnly, RoomObject;
    forall n ensures n in RoomsOnly(a) <==> n in RoomsOnly(b) {
      assert n in RoomSet(a) <==> n in RoomSet(b);
    }
    if RoomsOnly(a) != [] {
      assert RoomsOnly(a)[0] in RoomsOnly(b);
    }
    if RoomsOnly(b) != [] {
      assert RoomsOnly(b)[0] in RoomsOnly(a);
    }
  }

  predicate SameFlags(f: Form<seq<int>>, g: Form<seq<int>>) {
    && f.unicodeNames == g.unicodeNames && f.unicodeFull == g.unicodeFull && f.altNames == g.altNames
    && f.noLoosePropsNonOps == g.noLoosePropsNonOps && f.espEnabled == g.espEnabled
    && f.wizAuthoringAnnotation == g.wizAuthoringAnnotation && f.notifyLogon == g.notifyLogon
    && f.notifyLogoff == g.notifyLogoff && f.publicMedia == g.publicMedia && f.secureProps == g.secureProps
    && f.mediaManagerEnabled == g.mediaManagerEnabled && f.legacyClientsBlock == g.legacyClientsBlock
  }

  predicate SameWords(f: Form<seq<int>>, g: Form<seq<int>>) {
    && Trim(f.website) == Trim(g.website) && Trim(f.ypLanguage) == Trim(g.ypLanguage)
    && Trim(f.ypCategory) == Trim(g.ypCategory) && Trim(f.ypDescription) == Trim(g.ypDescription)
    && NormalRoomAnnotations(f.roomAnnotations) == NormalRoomAnnotations(g.roomAnnotations)
    && NormalWizAuthoring(f.wizAuthoring) == NormalWizAuthoring(g.wizAuthoring)
    && NormalMediaManagerRank(f.mediaManagerRank) == NormalMediaManagerRank(g.mediaManagerRank)
    && NormalMediaUploadRank(f.mediaUploadConfigRank) == NormalMediaUploadRank(g.mediaUploadConfigRank)
  }

  predicate SameValues(f: Form<seq<int>>, g: Form<seq<int>>) {
    && f.timeoutRoomId == g.timeoutRoomId
    && Positive(f.autopurgeBanlistDays, 0) == Positive(g.autopurgeBanlistDays, 0)
    && RoomsOnly(f.overflowRooms) == RoomsOnly(g.overflowRooms)
    && RoomSet(f.propFreezeRooms) == RoomSet(g.propFreezeRooms)
    && RoomSet(f.ratbotsAllowedRooms) == RoomSet(g.ratbotsAllowedRooms)
    && f.floodKill == g.floodKill && NormalSound(f.soundLimit) == NormalSound(g.soundLimit)
    && NormalPassword(f.passwordSecurity) == NormalPassword(g.passwordSecurity)
  }

  /** Equal normal forms, field by field. */
  lemma SameFields(f: Form<seq<int>>, g: Form<seq<int>>)
    requires Norm(f) == Norm(g)
    ensures SameFlags(f, g) && SameWords(f, g) && SameValues(f, g)
  {
    hide Trim, NormalRoomAnnotations, NormalWizAuthoring, NormalMediaManagerRank, NormalMediaUploadRank, RoomsOnly;
    hide RoomSet, NormalSound, NormalPassword, Positive;
  }

  lemma SameFlagAsked(f: Form<seq<int>>, g: Form<seq<int>>, k: Key)
    requires SameFlags(f, g)
    ensures AskedFlag(f, k) == AskedFlag(g, k)
  {
    hide FlagValue;
  }

  lemma SameLimitValues(f: Form<seq<int>>, g: Form<seq<int>>)
    requires SameValues(f, g)
    ensures SoundLimitValue(f.soundLimit) == SoundLimitValue(g.soundLimit)
    ensures PasswordValue(f.passwordSecurity) == PasswordValue(g.passwordSecurity)
  {
    hide RoomsOnly, RoomSet;
  }

  lemma SameNormSameAsked(f: Form<seq<int>>, g: Form<seq<int>>, k: Key)
    requires Norm(f) == Norm(g)
    ensures Asked(f, k) == Asked(g, k)
  {
    hide Norm, AskedFlag, SameFlags, Trim, ChoiceValue, RoomsValue, FloodKillValue, SoundLimitValue, PasswordValue;
    hide RoomSet, RoomsOnly, NormalRoomAnnotations, NormalWizAuthoring, NormalMediaManagerRank, NormalMediaUploadRank;
    hide NormalSound, NormalPassword;
    SameFields(f, g);
    SameFlagAsked(f, g, k);
    SameLimitValues(f, g);
    SameRoomsValue(f.propFreezeRooms, g.propFreezeRooms);
    SameRoomsValue(f.ratbotsAllowedRooms, g.ratbotsAllowedRooms);
  }

  /** Two forms save to the same file exactly when they have the same normal form. */
  lemma SameFileIff(orig: Top, f: Form<seq<int>>, g: Form<seq<int>>, a: Top, b: Top)
    requires IsApplied(orig, f, a) && IsApplied(orig, g, b)
    ensures a == b <==> Norm(f) == Norm(g)
  {
    hide Asked, Managed, Norm, Viewed, Slot;
    PutGet(orig, f, a);
    PutGet(orig, g, b);
    if Norm(f) == Norm(g) {
      forall k ensures Slot(a, k) == Slot(b, k) {
        if Managed(k) {
          SameNormSameAsked(f, g, k);
        }
      }
      SameSlots(a, b);
    }
  }

  /** Opening a saved file and saving it unchanged writes the same file. */
  lemma ResaveFixed(orig: Top, f: Form<seq<int>>, top: Top, g: Form<seq<int>>, again: Top)
    requires IsApplied(orig, f, top) && InSets(g) == Viewed(top) && IsApplied(top, g, again)
    ensures again == top
  {
    hide Asked, Managed, Norm, Viewed, IsApplied;
    PutGet(orig, f, top);
    ShownWritable(f, g);
    ResaveShowsSame(top, g, again);
    PutGet(top, g, again);
    SavedTwice(orig, f, top, g, again);
  }

  lemma ShownWritable(f: Form<seq<int>>, g: Form<seq<int>>)
    requires InSets(g) == Norm(f)
    ensures Writable(g)
  {
    hide Trim, NormalRoomAnnotations, NormalWizAuthoring, NormalMediaManagerRank, NormalMediaUploadRank, RoomsOnly;
    hide RoomSet, NormalSound;
  }

  lemma SavedTwice(orig: Top, f: Form<seq<int>>, top: Top, g: Form<seq<int>>, again: Top)
    requires IsApplied(orig, f, top) && IsApplied(top, g, again) && Norm(f) == Norm(g)
    ensures again == top
  {
    hide Asked, Managed, Norm, Slot;
    forall k ensures Slot(again, k) == Slot(top, k) {
      assert Slot(top, k) == if Managed(k) then Asked(f, k) else Slot(orig, k);
      if Managed(k) {
        SameNormSameAsked(f, g, k);
      }
    }
    SameSlots(again, top);
  }
}
