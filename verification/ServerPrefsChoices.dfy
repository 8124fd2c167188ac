/** What the guided serverprefs editor keeps, told by the values themselves: no legal choice is lost, every other
    text gets the documented default, defaults are left out of the file, and what is missing or of the wrong type
    shows as the default. */
module ServerPrefsChoices {
  import opened Wrappers
  import opened Bytes
  import opened Numbers
  import opened ServerPrefsLens
  import opened ServerPrefsLaws

  // ---------- Choices ----------

  /** A text stands for a word in any case, with white space around it. */
  predicate Says(s: bytes, word: bytes) {
    ToLower(Trim(s)) == word
  }

  predicate SaysNone(s: bytes, words: seq<bytes>) {
    forall w :: w in words ==> !Says(s, w)
  }

  /** What a text chooses: everyone is the default. */
  predicate ChoosesRoomAnnotations(s: bytes, shown: bytes) {
    && (forall w :: w in ["off", "wizards", "everyone"] && Says(s, w) ==> shown == w)
    && (Says(s, "wizard") ==> shown == "wizards")
    && (SaysNone(s, ["off", "wizards", "wizard", "everyone"]) ==> shown == "everyone")
  }

  lemma RoomAnnotationsChosen(s: bytes)
    ensures ChoosesRoomAnnotations(s, NormalRoomAnnotations(s))
  {
    hide Trim, ToLower;
    var words: seq<bytes> := ["off", "wizards", "wizard", "everyone"];
    assert words[0] in words && words[1] in words && words[2] in words && words[3] in words;
  }

  /** What a text chooses: on is the default. */
  predicate ChoosesWizAuthoring(s: bytes, shown: bytes) {
    && (forall w :: w in ["on", "off", "bless", "godonly"] && Says(s, w) ==> shown == w)
    && (SaysNone(s, ["on", "off", "bless", "godonly"]) ==> shown == "on")
  }

  lemma WizAuthoringChosen(s: bytes)
    ensures ChoosesWizAuthoring(s, NormalWizAuthoring(s))
  {
    hide Trim, ToLower;
    var words: seq<bytes> := ["on", "off", "bless", "godonly"];
    assert words[0] in words && words[1] in words && words[2] in words && words[3] in words;
  }

  /** What a text chooses: god and wizard get their plurals and owners is the default. */
  predicate ChoosesMediaManagerRank(s: bytes, shown: bytes) {
    && (forall w :: w in ["owners", "gods", "wizards"] && Says(s, w) ==> shown == w)
    && (Says(s, "god") ==> shown == "gods")
    && (Says(s, "wizard") ==> shown == "wizards")
    && (SaysNone(s, ["gods", "god", "wizards", "wizard"]) ==> shown == "owners")
  }

  lemma MediaManagerRankChosen(s: bytes)
    ensures ChoosesMediaManagerRank(s, NormalMediaManagerRank(s))
  {
    hide Trim, ToLower;
    var words: seq<bytes> := ["gods", "god", "wizards", "wizard"];
    assert words[0] in words && words[1] in words && words[2] in words && words[3] in words;
  }

  /** What a text chooses: the same, and off. */
  predicate ChoosesMediaUploadRank(s: bytes, shown: bytes) {
    && (forall w :: w in ["off", "owners", "gods", "wizards"] && Says(s, w) ==> shown == w)
    && (Says(s, "god") ==> shown == "gods")
    && (Says(s, "wizard") ==> shown == "wizards")
    && (SaysNone(s, ["off", "gods", "god", "wizards", "wizard"]) ==> shown == "owners")
  }

  lemma MediaUploadRankChosen(s: bytes)
    ensures ChoosesMediaUploadRank(s, NormalMediaUploadRank(s))
  {
    hide Trim, ToLower;
    var words: seq<bytes> := ["off", "gods", "god", "wizards", "wizard"];
    assert words[0] in words && words[1] in words && words[2] in words && words[3] in words;
    assert words[4] in words;
  }

  lemma LegalSaysItself(w: bytes)
    requires w in ["off", "on", "bless", "godonly", "owners", "gods", "wizards", "everyone"]
    ensures Says(w, w)
  {
    hide Trim, ToLower;
    PlainWord(w);
  }

  // ---------- Legal forms ----------

  predicate LegalTexts(f: Form<seq<int>>) {
    Trimmed(f.website) && Trimmed(f.ypLanguage) && Trimmed(f.ypCategory) && Trimmed(f.ypDescription)
  }

  predicate LegalChoices(f: Form<seq<int>>) {
    && f.roomAnnotations in ["off", "wizards", "everyone"]
    && f.wizAuthoring in ["on", "off", "bless", "godonly"]
    && f.mediaManagerRank in ["owners", "gods", "wizards"]
    && f.mediaUploadConfigRank in ["off", "owners", "gods", "wizards"]
  }

  predicate AreRooms(ids: seq<int>) {
    forall n :: n in ids ==> -32768 <= n <= 32767
  }

  predicate LegalNumbers(f: Form<seq<int>>) {
    && f.autopurgeBanlistDays >= 0 && f.passwordSecurity.minLength > 0
    && f.soundLimit.times > 0 && f.soundLimit.timeframe > 0
    && AreRooms(f.overflowRooms) && AreRooms(f.propFreezeRooms) && AreRooms(f.ratbotsAllowedRooms)
  }

  lemma ChoicesStay(f: Form<seq<int>>)
    requires LegalChoices(f)
    ensures NormalRoomAnnotations(f.roomAnnotations) == f.roomAnnotations
    ensures NormalWizAuthoring(f.wizAuthoring) == f.wizAuthoring
    ensures NormalMediaManagerRank(f.mediaManagerRank) == f.mediaManagerRank
    ensures NormalMediaUploadRank(f.mediaUploadConfigRank) == f.mediaUploadConfigRank
  {
    hide Says, SaysNone, NormalRoomAnnotations, NormalWizAuthoring, NormalMediaManagerRank, NormalMediaUploadRank;
    LegalSaysItself(f.roomAnnotations);
    LegalSaysItself(f.wizAuthoring);
    LegalSaysItself(f.mediaManagerRank);
    LegalSaysItself(f.mediaUploadConfigRank);
    RoomAnnotationsChosen(f.roomAnnotations);
    WizAuthoringChosen(f.wizAuthoring);
    MediaManagerRankChosen(f.mediaManagerRank);
    MediaUploadRankChosen(f.mediaUploadConfigRank);
  }

  lemma {:induction false} RoomsStay(ids: seq<int>)
    requires AreRooms(ids)
    ensures RoomsOnly(ids) == ids && RoomSet(ids) == (set n | n in ids)
  {
    if ids != [] {
      assert ids == [ids[0]] + ids[1..] && ids[0] in ids;
      assert forall n :: n in ids[1..] ==> n in ids;
      RoomsStay(ids[1..]);
    }
  }

  lemma TextsStay(f: Form<seq<int>>)
    requires LegalTexts(f)
    ensures Trim(f.website) == f.website && Trim(f.ypLanguage) == f.ypLanguage
    ensures Trim(f.ypCategory) == f.ypCategory && Trim(f.ypDescription) == f.ypDescription
  {
    hide Trim;
    TrimFixed(f.website);
    TrimFixed(f.ypLanguage);
    TrimFixed(f.ypCategory);
    TrimFixed(f.ypDescription);
  }

  lemma NumbersStay(f: Form<seq<int>>)
    requires LegalNumbers(f)
    ensures Positive(f.autopurgeBanlistDays, 0) == f.autopurgeBanlistDays
    ensures NormalSound(f.soundLimit) == f.soundLimit && NormalPassword(f.passwordSecurity) == f.passwordSecurity
    ensures RoomsOnly(f.overflowRooms) == f.overflowRooms
    ensures RoomSet(f.propFreezeRooms) == (set n | n in f.propFreezeRooms)
    ensures RoomSet(f.ratbotsAllowedRooms) == (set n | n in f.ratbotsAllowedRooms)
  {
    hide AreRooms, RoomsOnly, RoomSet;
    RoomsStay(f.overflowRooms);
    RoomsStay(f.propFreezeRooms);
    RoomsStay(f.ratbotsAllowedRooms);
  }

  lemma NormOfLegal(f: Form<seq<int>>)
    requires LegalTexts(f) && LegalChoices(f) && LegalNumbers(f)
    ensures Norm(f) == InSets(f)
  {
    TextsStay(f);
    ChoicesStay(f);
    NumbersStay(f);
    hide Trim, NormalRoomAnnotations, NormalWizAuthoring, NormalMediaManagerRank, NormalMediaUploadRank, RoomsOnly;
    hide RoomSet, LegalTexts, LegalChoices, LegalNumbers, Positive, NormalSound, NormalPassword;
  }

  /** A legal form comes back exactly as it was saved: every choice, number, flag and room of it. */
  lemma LegalFormKept(orig: Top, f: Form<seq<int>>, top: Top)
    requires LegalTexts(f) && LegalChoices(f) && LegalNumbers(f) && IsApplied(orig, f, top)
    ensures Viewed(top) == InSets(f)
  {
    hide Viewed, Norm, InSets, IsApplied, LegalTexts, LegalChoices, LegalNumbers;
    NormOfLegal(f);
    PutGet(orig, f, top);
  }

  /** The media manager's rank, from the form to the file and back; the default is left out of the file. */
  lemma MediaManagerRankKept(orig: Top, f: Form<seq<int>>, top: Top)
    requires IsApplied(orig, f, top)
    ensures var shown := Viewed(top).mediaManagerRank;
            && ChoosesMediaManagerRank(f.mediaManagerRank, shown)
            && Slot(top, MediaManagerRank) == if shown == "owners" then None else Some(Str(shown))
  {
    hide Viewed, Norm, IsApplied, Asked, ChoosesMediaManagerRank, NormalMediaManagerRank, Managed, Slot;
    PutGet(orig, f, top);
    NormWords(f);
    AllManaged();
    SlotAsked(orig, f, top, MediaManagerRank);
    AskedChoices(f);
    MediaManagerRankChosen(f.mediaManagerRank);
  }

  /** The rank that may configure uploads. */
  lemma MediaUploadRankKept(orig: Top, f: Form<seq<int>>, top: Top)
    requires IsApplied(orig, f, top)
    ensures var shown := Viewed(top).mediaUploadConfigRank;
            && ChoosesMediaUploadRank(f.mediaUploadConfigRank, shown)
            && Slot(top, MediaUploadConfigRank) == if shown == "owners" then None else Some(Str(shown))
  {
    hide Viewed, Norm, IsApplied, Asked, ChoosesMediaUploadRank, NormalMediaUploadRank, Managed, Slot;
    PutGet(orig, f, top);
    NormWords(f);
    AllManaged();
    SlotAsked(orig, f, top, MediaUploadConfigRank);
    AskedChoices(f);
    MediaUploadRankChosen(f.mediaUploadConfigRank);
  }

  /** Room annotations. */
  lemma RoomAnnotationsKept(orig: Top, f: Form<seq<int>>, top: Top)
    requires IsApplied(orig, f, top)
    ensures var shown := Viewed(top).roomAnnotations;
            && ChoosesRoomAnnotations(f.roomAnnotations, shown)
            && Slot(top, RoomAnnotations) == if shown == "everyone" then None else Some(Str(shown))
  {
    hide Viewed, Norm, IsApplied, Asked, ChoosesRoomAnnotations, NormalRoomAnnotations, Managed, Slot;
    PutGet(orig, f, top);
    NormWords(f);
    AllManaged();
    SlotAsked(orig, f, top, RoomAnnotations);
    AskedChoices(f);
    RoomAnnotationsChosen(f.roomAnnotations);
  }

  /** Wizard authoring. */
  lemma WizAuthoringKept(orig: Top, f: Form<seq<int>>, top: Top)
    requires IsApplied(orig, f, top)
    ensures var shown := Viewed(top).wizAuthoring;
            && ChoosesWizAuthoring(f.wizAuthoring, shown)
            && Slot(top, WizAuthoring) == if shown == "on" then None else Some(Str(shown))
  {
    hide Viewed, Norm, IsApplied, Asked, ChoosesWizAuthoring, NormalWizAuthoring, Managed, Slot;
    PutGet(orig, f, top);
    NormWords(f);
    AllManaged();
    SlotAsked(orig, f, top, WizAuthoring);
    AskedChoices(f);
    WizAuthoringChosen(f.wizAuthoring);
  }

  lemma NormWords(f: Form<seq<int>>)
    ensures Norm(f).roomAnnotations == NormalRoomAnnotations(f.roomAnnotations)
    ensures Norm(f).wizAuthoring == NormalWizAuthoring(f.wizAuthoring)
    ensures Norm(f).mediaManagerRank == NormalMediaManagerRank(f.mediaManagerRank)
    ensures Norm(f).mediaUploadConfigRank == NormalMediaUploadRank(f.mediaUploadConfigRank)
  {
    hide Trim, NormalRoomAnnotations, NormalWizAuthoring, NormalMediaManagerRank, NormalMediaUploadRank, RoomsOnly, RoomSet;
    hide NormalSound, NormalPassword;
  }

  lemma AskedChoices(f: Form<seq<int>>)
    ensures Asked(f, RoomAnnotations) == ChoiceValue(NormalRoomAnnotations(f.roomAnnotations), "everyone")
    ensures Asked(f, WizAuthoring) == ChoiceValue(NormalWizAuthoring(f.wizAuthoring), "on")
    ensures Asked(f, MediaManagerRank) == ChoiceValue(NormalMediaManagerRank(f.mediaManagerRank), "owners")
    ensures Asked(f, MediaUploadConfigRank) == ChoiceValue(NormalMediaUploadRank(f.mediaUploadConfigRank), "owners")
  {
    hide ChoiceValue, NormalRoomAnnotations, NormalWizAuthoring, NormalMediaManagerRank, NormalMediaUploadRank;
  }

  // ---------- Numbers out of range ----------

  /** Numbers a form should not hold: what a later read shows in their place. */
  lemma NumbersRepaired(orig: Top, f: Form<seq<int>>, top: Top)
    requires IsApplied(orig, f, top)
    ensures var shown := Viewed(top);
            && (f.autopurgeBanlistDays < 0 ==> shown.autopurgeBanlistDays == 0)
            && (f.soundLimit.times <= 0 ==> shown.soundLimit.times == 10)
            && (f.soundLimit.timeframe <= 0 ==> shown.soundLimit.timeframe == 60)
            && (f.passwordSecurity.minLength <= 0 ==> shown.passwordSecurity.minLength == 8)
            && (forall n :: n in shown.propFreezeRooms <==> n in f.propFreezeRooms && -32768 <= n <= 32767)
            && (forall n :: n in shown.ratbotsAllowedRooms <==> n in f.ratbotsAllowedRooms && -32768 <= n <= 32767)
            && (forall n :: n in shown.overflowRooms <==> n in f.overflowRooms && -32768 <= n <= 32767)
  {
    hide Viewed, IsApplied, Trim, NormalRoomAnnotations, NormalWizAuthoring, NormalMediaManagerRank, NormalMediaUploadRank;
    hide RoomsOnly;
    PutGet(orig, f, top);
  }

  // ---------- Defaults ----------

  /** The form of a file that says nothing. */
  const DEFAULT_FORM: Form<set<int>> := Form(
    "", "", "", "", 0, 0, false, true, true, false, true, "everyone", "on", true, false, false, true, false,
    true, "owners", "owners", false, [], {}, {}, FloodKill(false, 0, 0, 0, 0, 0, 0, 0, 0, 0, 0),
    SoundLimit(true, 10, 60), PasswordSecurity(8, true, false, false, false))

  /** Missing, null, or of a type no guided key has. */
  predicate SaysNothing(v: Option<Json>) {
    v == None || v == Some(Null) || v == Some(Fraction)
  }

  /** A file whose guided keys say nothing shows the defaults, whatever else is in it. */
  lemma DefaultsShown(top: Top)
    requires forall k :: Managed(k) ==> SaysNothing(Slot(top, k))
    ensures Viewed(top) == DEFAULT_FORM
  {
    hide Slot, Managed;
    AllManaged();
    EmptyChoices();
    hide NormalRoomAnnotations, NormalWizAuthoring, NormalMediaManagerRank, NormalMediaUploadRank;
  }

  lemma EmptyChoices()
    ensures NormalRoomAnnotations("") == "everyone" && NormalWizAuthoring("") == "on"
    ensures NormalMediaManagerRank("") == "owners" && NormalMediaUploadRank("") == "owners"
  {
    TrimFixed("");
    assert ToLower("") == "";
  }

  /** Saving the defaults clears every guided key and leaves the version. */
  lemma DefaultsCleared(orig: Top, f: Form<seq<int>>, top: Top)
    requires IsApplied(orig, f, top) && InSets(f) == DEFAULT_FORM
    ensures Slot(top, Version) == Some(Int(1))
    ensures forall k :: Managed(k) && k != Version ==> k !in top
  {
    hide Viewed, IsApplied, Managed;
    AllManaged();
    SlotAsked(orig, f, top, Version);
    forall k | Managed(k) && k != Version ensures k !in top {
      SlotAsked(orig, f, top, k);
      DefaultAsksNothing(f, k);
    }
  }

  lemma DefaultWords(f: Form<seq<int>>)
    requires InSets(f) == DEFAULT_FORM
    ensures TextValue(f.website) == TextValue(f.ypLanguage) == TextValue(f.ypCategory) == TextValue(f.ypDescription) == None
    ensures NormalRoomAnnotations(f.roomAnnotations) == "everyone" && NormalWizAuthoring(f.wizAuthoring) == "on"
    ensures NormalMediaManagerRank(f.mediaManagerRank) == NormalMediaUploadRank(f.mediaUploadConfigRank) == "owners"
  {
    assert f.roomAnnotations == "everyone" && f.wizAuthoring == "on";
    assert f.mediaManagerRank == "owners" && f.mediaUploadConfigRank == "owners";
    hide NormalRoomAnnotations, NormalWizAuthoring, NormalMediaManagerRank, NormalMediaUploadRank;
    TrimFixed("");
    DefaultChoices();
  }

  lemma DefaultChoices()
    ensures NormalRoomAnnotations("everyone") == "everyone" && NormalWizAuthoring("on") == "on"
    ensures NormalMediaManagerRank("owners") == "owners" && NormalMediaUploadRank("owners") == "owners"
  {
    hide Says, SaysNone, NormalRoomAnnotations, NormalWizAuthoring, NormalMediaManagerRank, NormalMediaUploadRank;
    LegalSaysItself("everyone");
    LegalSaysItself("on");
    LegalSaysItself("owners");
    RoomAnnotationsChosen("everyone");
    WizAuthoringChosen("on");
    MediaManagerRankChosen("owners");
    MediaUploadRankChosen("owners");
  }

  lemma DefaultValues(f: Form<seq<int>>)
    requires InSets(f) == DEFAULT_FORM
    ensures OverflowValue(f.overflowRooms) == RoomsValue(f.propFreezeRooms) == RoomsValue(f.ratbotsAllowedRooms) == None
    ensures FloodKillValue(f.floodKill) == SoundLimitValue(f.soundLimit) == PasswordValue(f.passwordSecurity) == None
  {
    NoRooms(f.propFreezeRooms, InSets(f).propFreezeRooms);
    NoRooms(f.ratbotsAllowedRooms, InSets(f).ratbotsAllowedRooms);
  }

  lemma NoRooms(ids: seq<int>, rooms: set<int>)
    requires rooms == (set n | n in ids)
    ensures ids == [] <==> rooms == {}
  {
    if ids != [] {
      assert ids[0] in rooms;
    }
  }

  lemma DefaultFlags(f: Form<seq<int>>, k: Key)
    requires InSets(f) == DEFAULT_FORM
    ensures AskedFlag(f, k) == None
  {
  }

  lemma DefaultAsksNothing(f: Form<seq<int>>, k: Key)
    requires InSets(f) == DEFAULT_FORM && k != Version
    ensures Asked(f, k) == None
  {
    DefaultWords(f);
    DefaultValues(f);
    DefaultFlags(f, k);
    hide Trim, NormalRoomAnnotations, NormalWizAuthoring, NormalMediaManagerRank, NormalMediaUploadRank, AskedFlag, TextValue;
    hide OverflowValue, RoomsValue, FloodKillValue, SoundLimitValue, PasswordValue;
  }
}
