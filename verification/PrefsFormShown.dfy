/** What the structured editor shows of a file, directive by directive, and what of a submitted form survives a
    save, field by field. */
module PrefsFormShown {
  import opened Wrappers
  import opened Bytes
  import opened Numbers
  import opened PrefsDirectives
  import opened PrefsState
  import opened PrefsParser
  import opened PalaceEscapes
  import opened PrefsForm
  import opened PrefsFormLaws
  import opened PrefsReadings
  import opened NumberLaws
  import opened PrefsRoundTrip

  // ---------- Opening a file ----------

  /** The text the form shows of a directive. */
  function FormText(f: Form, d: Directive): Option<bytes> {
    match d
    case ServerName => Some(f.serverName)
    case Sysop => Some(f.sysop)
    case Url => Some(f.url)
    case Website => Some(f.website)
    case Motd => Some(f.motd)
    case Blurb => Some(f.blurb)
    case ChatLog => Some(f.chatLogTypes)
    case ChatLogFile => Some(f.chatLogFile)
    case ChatLogFormat => Some(f.chatLogFormat)
    case _ => None
  }

  function FormNumber(f: Form, d: Directive): Option<int> {
    match d
    case DeathPenalty => Some(f.deathPenalty)
    case MaxOccupancy => Some(f.maxOccupancy)
    case RoomOccupancy => Some(f.roomOccupancy)
    case MinFloodEvents => Some(f.minFloodEvents)
    case PurgePropDays => Some(f.purgePropDays)
    case MaxSessionId => Some(f.recycleLimit)
    case _ => None
  }

  /** The form shows each directive in its own field. */
  lemma FormShows(st: PrefState, d: Directive)
    ensures FormText(StateToForm(st), d).Some? ==> FormText(StateToForm(st), d) == StringField(d, st)
    ensures FormNumber(StateToForm(st), d).Some? ==> FormNumber(StateToForm(st), d) == NumberField(d, st)
  {
  }

  /** A quoted string in the last line of a file is shown in the directive's field. */
  lemma TextOpened(before: seq<bytes>, d: Directive, lead: bytes, word: bytes, sep: byte, pad: bytes, ps: seq<Piece>, rest: bytes, f: Form)
    requires NewlineFree(before) && FormText(f, d).Some? && AllSpace(pad) && PiecesOk(ps, "\"" + rest)
    requires IsLine(d, lead, word, sep, pad + ("\"" + Spelled(ps) + "\"" + rest))
    ensures var content := Unlines(before + [LineOf(lead, word, sep, pad + ("\"" + Spelled(ps) + "\"" + rest))]);
            FormText(StateToForm(ParseText(content).st), d) == Some(if IsTrimmedField(d) then Trim(Means(ps)) else Means(ps))
  {
    hide ParseText, Unlines, LineOf, IsLine, Trim, PiecesOk, Spelled, Means, StringField, StateToForm;
    var content := Unlines(before + [LineOf(lead, word, sep, pad + ("\"" + Spelled(ps) + "\"" + rest))]);
    SameFields(f, EMPTY, d);
    StringRead(before, d, lead, word, sep, pad, ps, rest);
    SameFields(f, ParseText(content).st, d);
    FormShows(ParseText(content).st, d);
  }

  lemma SameFields(f: Form, st: PrefState, d: Directive)
    requires FormText(f, d).Some?
    ensures StringField(d, st).Some? && FormText(StateToForm(st), d).Some?
  {
  }

  // ---------- Saving a form ----------

  /** A short number is kept when it fits 16 bits and cut to the nearest that does. */
  predicate KeptShort(given: int, shown: int) {
    && (-32768 <= given <= 32767 ==> shown == given)
    && (given > 32767 ==> shown == 32767)
    && (given < -32768 ==> shown == -32768)
  }

  /** The chat-log format needs types to be logged; csv in any case and padding is csv, and any other text json. */
  predicate KeptFormat(types: bytes, given: bytes, shown: bytes) {
    && (AllSpace(types) || AllSpace(given) ==> shown == "")
    && (!AllSpace(types) && !AllSpace(given) ==> shown == if EqualFold(Trim(given), "csv") then "csv" else "json")
  }

  predicate KeptNumbers(f: Form, shown: Form) {
    && KeptShort(f.deathPenalty, shown.deathPenalty) && KeptShort(f.maxOccupancy, shown.maxOccupancy)
    && KeptShort(f.roomOccupancy, shown.roomOccupancy) && KeptShort(f.minFloodEvents, shown.minFloodEvents)
    && KeptShort(f.purgePropDays, shown.purgePropDays)
  }

  predicate KeptTexts(f: Form, shown: Form) {
    && shown.serverName == f.serverName && shown.sysop == f.sysop && shown.url == f.url && shown.website == f.website
    && shown.blurb == f.blurb && shown.motd == Trim(f.motd)
    && shown.chatLogTypes == Trim(f.chatLogTypes) && shown.chatLogFile == Trim(f.chatLogFile)
  }

  /** The directives the form does not show; a stored hash goes when there is a plain password. */
  predicate KeptHidden(before: PrefState, after: PrefState) {
    && after.wizardPlain == before.wizardPlain && after.godPlain == before.godPlain
    && after.wizardHash == (if before.wizardPlain == "" then before.wizardHash else "")
    && after.godHash == (if before.godPlain == "" then before.godHash else "")
    && after.hostPasswordHash == before.hostPasswordHash && after.permissions == before.permissions
    && after.serverOptions == before.serverOptions && after.autoPurge == before.autoPurge
    && after.saveSessionKeys == before.saveSessionKeys && after.picFolder == before.picFolder
    && after.httpServer == before.httpServer && after.autoAnnounce == before.autoAnnounce
    && after.noAutoRegister == before.noAutoRegister
  }

  lemma TextsOfNormal(f: Form)
    ensures KeptTexts(f, NormalForm(f)) && NormalForm(f).chatLogNoWarn == f.chatLogNoWarn
  {
    hide Trim;
  }

  lemma NumbersOfNormal(f: Form)
    ensures KeptNumbers(f, NormalForm(f))
    ensures exists q: int :: f.recycleLimit == NormalForm(f).recycleLimit + q * 0x1_0000_0000
  {
    NarrowingKeepsLowBits(f.recycleLimit);
  }

  lemma FormatOfNormal(f: Form)
    ensures KeptFormat(f.chatLogTypes, f.chatLogFormat, NormalForm(f).chatLogFormat)
  {
    hide Trim, AllSpace, EqualFold;
    BlankTrim(f.chatLogTypes);
    BlankTrim(f.chatLogFormat);
  }

  lemma HiddenOfNormal(before: PrefState, after: PrefState)
    requires Hidden(after) == Hidden(Normal(before))
    requires Trim(before.wizardHash) == before.wizardHash && Trim(before.godHash) == before.godHash
    requires Trim(before.hostPasswordHash) == before.hostPasswordHash
    ensures KeptHidden(before, after)
  {
    hide Trim, NormalFormat;
    var a, b := Hidden(after), Hidden(Normal(before));
    assert a.wizardPlain == b.wizardPlain && a.godPlain == b.godPlain && a.wizardHash == b.wizardHash && a.godHash == b.godHash;
    assert a.hostPasswordHash == b.hostPasswordHash && a.permissions == b.permissions && a.serverOptions == b.serverOptions;
    assert a.autoPurge == b.autoPurge && a.saveSessionKeys == b.saveSessionKeys && a.picFolder == b.picFolder;
    assert a.httpServer == b.httpServer && a.autoAnnounce == b.autoAnnounce && a.noAutoRegister == b.noAutoRegister;
  }

  predicate HashesTrimmed(st: PrefState) {
    Trim(st.wizardHash) == st.wizardHash && Trim(st.godHash) == st.godHash && Trim(st.hostPasswordHash) == st.hostPasswordHash
  }

  lemma ApplyTrims(d: Directive, rest: bytes, st: PrefState)
    requires HashesTrimmed(st)
    ensures HashesTrimmed(Apply(d, rest, st))
  {
    hide Trim, CString, ParseInt, IsOn, StringOr, ToInt16, ToInt32, ToUint32;
    match CString(rest) {
      case Some(s) => TrimTwice(s);
      case None =>
    }
  }

  lemma {:induction false} FoldTrims(ls: seq<bytes>, st: PrefState)
    requires HashesTrimmed(st)
    ensures HashesTrimmed(FoldState(ls, st))
    decreases |ls|
  {
    hide HashesTrimmed, Apply, ReadLine;
    if ls != [] {
      match ReadLine(ls[0]) {
        case None => FoldTrims(ls[1..], st);
        case Some(r) =>
          ApplyTrims(r.d, r.rest, st);
          FoldTrims(ls[1..], Apply(r.d, r.rest, st));
      }
    }
  }

  lemma ParsedTrims(content: bytes)
    ensures HashesTrimmed(ParseText(content).st)
  {
    hide ParseText, FoldState, Lines, DropCr, HashesTrimmed;
    ParsedState(content);
    NothingTrims();
    FoldTrims(Lines(DropCr(content)), EMPTY);
  }

  lemma NothingTrims()
    ensures HashesTrimmed(EMPTY)
  {
    TrimFixed("");
  }

  /** Opening a saved file shows the submitted form, numbers cut to their width and the trimmed fields trimmed, and
      has the directives the form does not show as they were. */
  lemma SavedFormShown(existing: bytes, form: Form, e: Option<Entry>)
    ensures var before := ParseText(existing);
            var after := ParseText(Saved(existing, form, before.unknownTail, e));
            var shown := StateToForm(after.st);
            && KeptTexts(form, shown) && KeptNumbers(form, shown) && shown.chatLogNoWarn == form.chatLogNoWarn
            && KeptFormat(form.chatLogTypes, form.chatLogFormat, shown.chatLogFormat)
            && (exists q: int :: form.recycleLimit == shown.recycleLimit + q * 0x1_0000_0000)
            && KeptHidden(before.st, after.st)
  {
    hide ParseText, Saved, StateToForm, NormalForm, KeptTexts, KeptNumbers, KeptFormat, KeptHidden, Hidden, Normal, UnknownLines;
    SaveShowsForm(existing, form, e);
    TextsOfNormal(form);
    NumbersOfNormal(form);
    FormatOfNormal(form);
    ParsedTrims(existing);
    HiddenOfNormal(ParseText(existing).st, ParseText(Saved(existing, form, ParseText(existing).unknownTail, e)).st);
  }
}
