/** Reading back what the printer of pserver.prefs wrote. */
module PrefsRoundTrip {
  import opened Wrappers
  import opened Bytes
  import opened Numbers
  import opened PalaceString
  import opened PrefsState
  import opened PrefsDirectives
  import opened PrefsParser
  import opened PrefsRenderer

  // ---------- What one line does to the state ----------

  datatype Reading = Reading(d: Directive, rest: bytes)

  /** The directive a line carries; None for blank lines, comments and unknown words. */
  function ReadLine(raw: bytes): Option<Reading> {
    var line := Trim(raw);
    if line == "" || HasPrefix(line, ";") then None
    else
      var s := SplitFirstToken(line);
      if s.token == "" then None
      else
        var d := Recognize(ToUpper(s.token));
        if d == Unrecognized then None else Some(Reading(d, s.rest))
  }

  function ApplyLine(raw: bytes, st: PrefState): PrefState {
    match ReadLine(raw)
    case None => st
    case Some(r) => Apply(r.d, r.rest, st)
  }

  function FoldState(ls: seq<bytes>, st: PrefState): PrefState
    decreases |ls|
  {
    if ls == [] then st else FoldState(ls[1..], ApplyLine(ls[0], st))
  }

  lemma {:induction false} FoldStateAppend(a: seq<bytes>, b: seq<bytes>, st: PrefState)
    ensures FoldState(a + b, st) == FoldState(b, FoldState(a, st))
    decreases |a|
  {
    hide ApplyLine;
    if a == [] {
      assert a + b == b;
    } else {
      assert (a + b)[1..] == a[1..] + b;
      FoldStateAppend(a[1..], b, ApplyLine(a[0], st));
    }
  }

  lemma FoldOne(raw: bytes, st: PrefState)
    ensures FoldState([raw], st) == ApplyLine(raw, st)
  {
    var ls := [raw];
    assert ls[1..] == [];
  }

  lemma ScanLineState(a: Scan, raw: bytes, ln: nat)
    ensures ScanLine(a, raw, ln).st == ApplyLine(raw, a.st)
  {
    hide SplitFirstToken, Recognize, Trim;
  }

  /** The parsed state is the fold of the lines' effects: banner and warnings do not matter. */
  lemma {:induction false} ScanLinesState(a: Scan, ls: seq<bytes>, ln: nat)
    ensures ScanLines(a, ls, ln).st == FoldState(ls, a.st)
    decreases |ls|
  {
    hide ApplyLine, ScanLine;
    if ls != [] {
      ScanLineState(a, ls[0], ln);
      ScanLinesState(ScanLine(a, ls[0], ln), ls[1..], ln + 1);
    }
  }

  lemma ParsedState(content: bytes)
    ensures ParseText(content).st == FoldState(Lines(DropCr(content)), EMPTY)
  {
    hide ScanLines, FoldState;
    ScanLinesState(START, Lines(DropCr(content)), 0);
  }

  /** A directive line the parser takes in without keeping it or complaining about it,
      other than a directory announcement. */
  predicate Known(raw: bytes) {
    match ReadLine(raw)
    case None => false
    case Some(r) => !IsAnnouncement(r.d) && (r.d == ServerName ==> CString(r.rest).Some?)
  }

  predicate IsAnnouncement(d: Directive) {
    d.YpMyExtAddr? || d.YpMyExtPort?
  }

  lemma ScanKnownLine(a: Scan, raw: bytes, ln: nat)
    requires Known(raw)
    ensures ScanLine(a, raw, ln) == a.(st := ApplyLine(raw, a.st), bannerDone := true)
  {
    hide SplitFirstToken, Recognize, Trim;
  }

  lemma {:induction false} ScanKnownLines(a: Scan, ls: seq<bytes>, ln: nat)
    requires forall i :: 0 <= i < |ls| ==> Known(ls[i])
    ensures ScanLines(a, ls, ln) == a.(st := FoldState(ls, a.st), bannerDone := a.bannerDone || ls != [])
    decreases |ls|
  {
    hide ApplyLine, ScanLine, Known;
    if ls != [] {
      ScanKnownLine(a, ls[0], ln);
      ScanKnownLines(ScanLine(a, ls[0], ln), ls[1..], ln + 1);
    }
  }

  lemma {:induction false} ScanLinesAppend(a: Scan, ls: seq<bytes>, more: seq<bytes>, ln: nat)
    ensures ScanLines(a, ls + more, ln) == ScanLines(ScanLines(a, ls, ln), more, ln + |ls|)
    decreases |ls|
  {
    hide ScanLine;
    if ls == [] {
      assert ls + more == more;
    } else {
      assert (ls + more)[1..] == ls[1..] + more;
      ScanLinesAppend(ScanLine(a, ls[0], ln), ls[1..], more, ln + 1);
    }
  }

  // ---------- Reading one printed line ----------

  lemma WordRecognized(d: Directive)
    requires d != Unrecognized
    ensures Recognize(ToUpper(Word(d))) == d
    ensures Word(d) != "" && Trimmed(Word(d)) && Word(d)[0] != ';'
    ensures NoNewline(Word(d)) && '\r' !in Word(d) && IndexBlank(Word(d)) == |Word(d)|
  {
    hide Recognize, Word;
    WordsHaveMarks();
    assert ToUpper(Word(d)) == Word(d);
    WordIsItself(d);
    NoBlank(Word(d));
  }

  lemma {:induction false} NoBlank(s: bytes)
    requires forall i :: 0 <= i < |s| ==> s[i] != ' ' && s[i] != '\t'
    ensures IndexBlank(s) == |s|
  {
    if s != [] {
      NoBlank(s[1..]);
    }
  }

  lemma {:induction false} IndexBlankAfter(name: bytes, rest: bytes)
    requires IndexBlank(name) == |name|
    ensures IndexBlank(name + " " + rest) == |name|
  {
    var s := name + " " + rest;
    if name != [] {
      assert s[1..] == name[1..] + " " + rest;
      IndexBlankAfter(name[1..], rest);
    }
  }

  lemma SplitAt(line: bytes, n: nat)
    requires line != [] && Trim(line) == line && IndexBlank(line) == n < |line|
    ensures SplitFirstToken(line) == Split(line[..n], Trim(line[n..]))
  {
    hide Trim, IndexBlank;
  }

  lemma PrintedIsTrimmed(name: bytes, core: bytes)
    requires name != [] && Trimmed(name) && core != [] && Trimmed(core)
    ensures Trim(name + " " + core) == name + " " + core
  {
    var line := name + " " + core;
    assert line[0] == name[0] && line[|line| - 1] == core[|core| - 1];
    TrimFixed(line);
  }

  lemma PrintedParts(name: bytes, core: bytes)
    requires name != [] && Trimmed(name) && IndexBlank(name) == |name|
    requires core != [] && Trimmed(core)
    ensures var line := name + " " + core; SplitFirstToken(line) == Split(name, core)
  {
    hide Trim, IndexBlank, SplitFirstToken;
    var line := name + " " + core;
    PrintedIsTrimmed(name, core);
    IndexBlankAfter(name, core);
    SplitAt(line, |name|);
    assert line[..|name|] == name;
    assert line[|name|..] == " " + core + "";
    TrimPadded(" ", core, "");
  }

  lemma LeadingKept(arg: bytes)
    requires arg != [] && !IsSpace(arg[0])
    ensures Trim(arg) != [] && exists pad :: AllSpace(pad) && arg == Trim(arg) + pad
  {
    assert TrimLeft(arg) == arg;
    var pad := TrimRightParts(arg);
  }

  /** A printed line is split into its word and its trimmed argument. */
  lemma ReadPrinted(d: Directive, arg: bytes)
    requires d != Unrecognized && arg != [] && !IsSpace(arg[0])
    ensures ReadLine(Line(d, arg)) == Some(Reading(d, Trim(arg)))
  {
    hide Word, Recognize, Trim, SplitFirstToken, IndexBlank, ToUpper;
    WordRecognized(d);
    LeadingKept(arg);
    var core := Trim(arg);
    var pad :| AllSpace(pad) && arg == core + pad;
    PrintedParts(Word(d), core);
    PrintedIsTrimmed(Word(d), core);
    var line := Word(d) + " " + core;
    TrimAppendSpace(line, pad);
    assert Line(d, arg) == line + pad;
    assert line[0] == Word(d)[0];
  }

  lemma ReadFlag(d: Directive)
    requires d != Unrecognized
    ensures ReadLine(Word(d)) == Some(Reading(d, ""))
  {
    hide Word, Recognize;
    WordRecognized(d);
    TrimFixed(Word(d));
    assert ToUpper(ToUpper(Word(d))) == ToUpper(Word(d));
  }

  lemma ReadQuoted(v: bytes)
    ensures Trim(Quoted(v)) == Quoted(v) && !IsSpace(Quoted(v)[0])
    ensures CString(Quoted(v)) == Some(v)
  {
    QuotedIsTrimmed(v);
    TrimFixed(Quoted(v));
    QuotedRoundTrip(v, "");
    assert Quoted(v) + "" == Quoted(v);
  }

  lemma ReadDec(n: int64)
    ensures !IsSpace(Dec(n)[0]) && ParseInt(Trim(Dec(n))) == n
    ensures NoNewline(Dec(n)) && '\r' !in Dec(n)
  {
    DecRoundTrip(n);
    var s := Dec(n);
    assert forall i :: 0 <= i < |s| ==> s[i] == '-' || '0' <= s[i] <= '9';
    TrimFixed(s);
    assert |s| > 1 ==> '0' <= s[1] <= '9';
  }

  lemma ReadHex(v: uint32)
    ensures !IsSpace(Hex8(v)[0]) && ParseInt(Trim(Hex8(v))) == v
    ensures NoNewline(Hex8(v)) && '\r' !in Hex8(v)
  {
    hide Trim, Digits, ScanDigits, AllSpace;
    var d := Digits(v, 16);
    var pad := Spaces(if |d| < 8 then 8 - |d| else 0);
    var s := "0x" + d;
    assert Hex8(v) == s + pad;
    assert s[0] == '0' && s[1] == 'x' && s[|s| - 1] == d[|d| - 1] && s[2..] == d;
    TrimFixed(s);
    TrimAppendSpace(s, pad);
    DigitsRoundTrip(v, 16, 0xFFFF_FFFF);
  }

  // ---------- The printed text as a whole ----------

  const BANNER: bytes := "; Server Prefs\n;\n"

  ghost predicate Clean(ls: seq<bytes>) {
    forall i :: 0 <= i < |ls| ==> Known(ls[i]) && NoNewline(ls[i]) && '\r' !in ls[i]
  }

  /** The text is the banner and lines that rebuild the given state. */
  ghost predicate Rebuilds(text: bytes, st: PrefState) {
    exists ls :: Clean(ls) && text == BANNER + Unlines(ls) && FoldState(ls, EMPTY) == st
  }

  /** The fields a directive sets, copied from one state into another. */
  function Copied(d: Directive, n: PrefState, a: PrefState): PrefState {
    match d
    case ServerName => a.(serverName := n.serverName)
    case WizardPassword => a.(wizardPlain := n.wizardPlain)
    case WizardPasswordHash => a.(wizardHash := n.wizardHash)
    case GodPassword => a.(godPlain := n.godPlain)
    case GodPasswordHash => a.(godHash := n.godHash)
    case HostPasswordHash => a.(hostPasswordHash := n.hostPasswordHash)
    case PicFolder => a.(picFolder := n.picFolder)
    case MaxSessionId => a.(recycleLimit := n.recycleLimit)
    case ServerOptions => a.(serverOptions := n.serverOptions)
    case SaveSessionKeys => a.(saveSessionKeys := n.saveSessionKeys)
    case Permissions => a.(permissions := n.permissions)
    case DeathPenalty => a.(deathPenaltyMinutes := n.deathPenaltyMinutes)
    case MaxOccupancy => a.(maxOccupancy := n.maxOccupancy)
    case RoomOccupancy => a.(roomOccupancy := n.roomOccupancy)
    case MinFloodEvents => a.(minFloodEvents := n.minFloodEvents)
    case PurgePropDays => a.(purgePropDays := n.purgePropDays)
    case AutoPurge => a.(autoPurge := n.autoPurge)
    case Sysop => a.(sysop := n.sysop)
    case Url => a.(url := n.url)
    case Website => a.(website := n.website)
    case Motd => a.(motd := n.motd)
    case Blurb => a.(description := n.description)
    case HttpUrl => a.(httpServer := n.httpServer)
    case AutoAnnounce => a.(autoAnnounce := n.autoAnnounce)
    case ChatLog => a.(chatLogTypes := n.chatLogTypes)
    case ChatLogFile => a.(chatLogFile := n.chatLogFile)
    case ChatLogNoWarn => a.(chatLogNoWarn := n.chatLogNoWarn)
    case ChatLogFormat => a.(chatLogFormat := n.chatLogFormat)
    case NoAutoRegister => a.(noAutoRegister := n.noAutoRegister)
    case _ => a
  }

  /** One printed line, read back, copies its directive's field. */
  ghost predicate Reads(ls: seq<bytes>, a: PrefState, b: PrefState) {
    Clean(ls) && FoldState(ls, a) == b
  }

  lemma ReadsNothing(a: PrefState)
    ensures Reads([], a, a)
  {
  }

  predicate IsPrinted(d: Directive) {
    d != Unrecognized && !IsAnnouncement(d)
  }

  lemma ReadsOne(d: Directive, arg: bytes, a: PrefState)
    requires IsPrinted(d) && arg != [] && !IsSpace(arg[0])
    requires NoNewline(arg) && '\r' !in arg
    requires d == ServerName ==> CString(Trim(arg)).Some?
    ensures Reads([Line(d, arg)], a, Apply(d, Trim(arg), a))
  {
    hide Apply, Word, Trim, CString;
    WordRecognized(d);
    ReadPrinted(d, arg);
    var line := Line(d, arg);
    assert ApplyLine(line, a) == Apply(d, Trim(arg), a);
    FoldOne(line, a);
    assert Known(line);
  }

  lemma ReadsString(d: Directive, v: bytes, a: PrefState)
    requires IsPrinted(d)
    ensures Reads(StringLine(d, v), a, if v != "" then Apply(d, Quoted(v), a) else a)
    ensures CString(Quoted(v)) == Some(v)
  {
    hide Apply, CString, Quoted, Trim;
    ReadQuoted(v);
    assert FoldState([], a) == a;
    if v != "" {
      QuotedIsTrimmed(v);
      ReadsOne(d, Quoted(v), a);
    }
  }

  lemma ReadsInt(d: Directive, v: int64, a: PrefState)
    requires IsPrinted(d) && d != ServerName
    ensures Reads(IntLine(d, v), a, if v != 0 then Apply(d, Trim(Dec(v)), a) else a)
    ensures ParseInt(Trim(Dec(v))) == v
  {
    hide Apply, ParseInt, Trim;
    ReadDec(v);
    if v != 0 {
      ReadsOne(d, Dec(v), a);
    }
  }

  lemma ReadsHex(d: Directive, v: uint32, condition: bool, a: PrefState)
    requires IsPrinted(d) && d != ServerName
    ensures Reads(HexLine(d, v, condition), a, if condition then Apply(d, Trim(Hex8(v)), a) else a)
    ensures ToUint32(ParseInt(Trim(Hex8(v)))) == v
  {
    hide Apply, ParseInt, Trim;
    ReadHex(v);
    Uint32Kept(v);
    ReadsNothing(a);
    if condition {
      ReadsOne(d, Hex8(v), a);
    }
  }

  lemma ReadsFlag(d: Directive, v: bool, a: PrefState)
    requires IsPrinted(d) && d != ServerName
    ensures Reads(FlagLine(d, v), a, if v then Apply(d, "", a) else a)
  {
    hide Apply, Word, Trim, CString;
    ReadsNothing(a);
    if v {
      WordRecognized(d);
      ReadFlag(d);
      FoldOne(Word(d), a);
      assert Known(Word(d));
    }
  }

  lemma ReadsOn(d: Directive, v: bool, a: PrefState)
    requires IsPrinted(d) && d != ServerName
    ensures Reads(OnLine(d, v), a, if v then Apply(d, "ON", a) else a)
    ensures IsOn("ON")
  {
    OnIsOn();
    hide Apply, IsOn, Trim;
    ReadsNothing(a);
    if v {
      ReadsOne(d, "ON", a);
    }
  }

  lemma OnIsOn()
    ensures Trim("ON") == "ON" && IsOn("ON")
  {
    hide TrimRight;
    TrimFixed("ON");
    assert FirstToken("ON") == "ON";
    assert ToLower("ON") == "on";
  }

  lemma ReadsFormat(st: PrefState, a: PrefState)
    requires a.chatLogFormat == ""
    ensures Reads(Emitted(ChatLogFormat, st), a, Copied(ChatLogFormat, Normal(st), a))
  {
    hide NormalFormat, Trim, StringLine, Reads, CString, Quoted;
    var f := NormalFormat(st.chatLogTypes, st.chatLogFormat);
    NormalFormatTrimmed(st.chatLogTypes, st.chatLogFormat);
    ReadsString(ChatLogFormat, f, a);
  }

  /** The directive's field is the same in both states. */
  predicate Same(d: Directive, a: PrefState, b: PrefState) {
    match d
    case ServerName => a.serverName == b.serverName
    case WizardPassword => a.wizardPlain == b.wizardPlain
    case WizardPasswordHash => a.wizardHash == b.wizardHash
    case GodPassword => a.godPlain == b.godPlain
    case GodPasswordHash => a.godHash == b.godHash
    case HostPasswordHash => a.hostPasswordHash == b.hostPasswordHash
    case PicFolder => a.picFolder == b.picFolder
    case MaxSessionId => a.recycleLimit == b.recycleLimit
    case ServerOptions => a.serverOptions == b.serverOptions
    case SaveSessionKeys => a.saveSessionKeys == b.saveSessionKeys
    case Permissions => a.permissions == b.permissions
    case DeathPenalty => a.deathPenaltyMinutes == b.deathPenaltyMinutes
    case MaxOccupancy => a.maxOccupancy == b.maxOccupancy
    case RoomOccupancy => a.roomOccupancy == b.roomOccupancy
    case MinFloodEvents => a.minFloodEvents == b.minFloodEvents
    case PurgePropDays => a.purgePropDays == b.purgePropDays
    case AutoPurge => a.autoPurge == b.autoPurge
    case Sysop => a.sysop == b.sysop
    case Url => a.url == b.url
    case Website => a.website == b.website
    case Motd => a.motd == b.motd
    case Blurb => a.description == b.description
    case HttpUrl => a.httpServer == b.httpServer
    case AutoAnnounce => a.autoAnnounce == b.autoAnnounce
    case ChatLog => a.chatLogTypes == b.chatLogTypes
    case ChatLogFile => a.chatLogFile == b.chatLogFile
    case ChatLogNoWarn => a.chatLogNoWarn == b.chatLogNoWarn
    case ChatLogFormat => a.chatLogFormat == b.chatLogFormat
    case NoAutoRegister => a.noAutoRegister == b.noAutoRegister
    case _ => true
  }

  predicate Unset(d: Directive, a: PrefState) {
    Same(d, a, EMPTY)
  }

  lemma ReadsHash(d: Directive, plain: bytes, hash: bytes, a: PrefState)
    requires IsPrinted(d)
    ensures Reads(HashLine(d, plain, hash), a,
                  if plain == "" && Trim(hash) != "" then Apply(d, Quoted(Trim(hash)), a) else a)
    ensures CString(Quoted(Trim(hash))) == Some(Trim(hash)) && Trim(Trim(hash)) == Trim(hash)
  {
    hide Apply, CString, Quoted, Trim, StringLine, Reads;
    TrimTwice(hash);
    ReadsNothing(a);
    ReadsString(d, Trim(hash), a);
  }

  lemma ReadsIdentity(d: Directive, st: PrefState, a: PrefState)
    requires Unset(d, a)
    requires d.ServerName? || d.WizardPassword? || d.WizardPasswordHash? || d.GodPassword? || d.GodPasswordHash? || d.HostPasswordHash?
    ensures Reads(Emitted(d, st), a, Copied(d, Normal(st), a))
  {
    hide Reads, StringLine, IntLine, FlagLine, HexLine, OnLine, HashLine;
    hide Trim, CString, ParseInt, Quoted, Dec, Hex8, IsOn, NormalFormat, ToInt16, ToInt32, ToUint32;
    match d {
      case ServerName => ReadsString(d, st.serverName, a);
      case WizardPassword => ReadsString(d, st.wizardPlain, a);
      case WizardPasswordHash => ReadsHash(d, st.wizardPlain, st.wizardHash, a);
      case GodPassword => ReadsString(d, st.godPlain, a);
      case GodPasswordHash => ReadsHash(d, st.godPlain, st.godHash, a);
      case HostPasswordHash => TrimTwice(st.hostPasswordHash); ReadsString(d, Trim(st.hostPasswordHash), a);
    }
  }

  lemma ReadsLimits(d: Directive, st: PrefState, a: PrefState)
    requires Unset(d, a)
    requires d.Permissions? || d.DeathPenalty? || d.MaxOccupancy? || d.RoomOccupancy? || d.MinFloodEvents?
    ensures Reads(Emitted(d, st), a, Copied(d, Normal(st), a))
  {
    hide Reads, StringLine, IntLine, FlagLine, HexLine, OnLine, HashLine;
    hide Trim, CString, ParseInt, Quoted, Dec, Hex8, IsOn, NormalFormat, ToInt16, ToInt32, ToUint32;
    match d {
      case Permissions => ReadsHex(d, st.permissions, true, a);
      case DeathPenalty => ReadsInt(d, st.deathPenaltyMinutes, a); Int16Kept(st.deathPenaltyMinutes);
      case MaxOccupancy => ReadsInt(d, st.maxOccupancy, a); Int16Kept(st.maxOccupancy);
      case RoomOccupancy => ReadsInt(d, st.roomOccupancy, a); Int16Kept(st.roomOccupancy);
      case MinFloodEvents => ReadsInt(d, st.minFloodEvents, a); Int16Kept(st.minFloodEvents);
    }
  }

  lemma ReadsUpkeep(d: Directive, st: PrefState, a: PrefState)
    requires Unset(d, a)
    requires d.PurgePropDays? || d.AutoPurge? || d.MaxSessionId? || d.ServerOptions? || d.SaveSessionKeys?
    ensures Reads(Emitted(d, st), a, Copied(d, Normal(st), a))
  {
    hide Reads, StringLine, IntLine, FlagLine, HexLine, OnLine, HashLine;
    hide Trim, CString, ParseInt, Quoted, Dec, Hex8, IsOn, NormalFormat, ToInt16, ToInt32, ToUint32;
    match d {
      case PurgePropDays => ReadsInt(d, st.purgePropDays, a); Int16Kept(st.purgePropDays);
      case AutoPurge => ReadsOn(d, st.autoPurge, a);
      case MaxSessionId => ReadsInt(d, st.recycleLimit, a); Int32Kept(st.recycleLimit);
      case ServerOptions => ReadsHex(d, st.serverOptions, st.serverOptions != 0, a);
      case SaveSessionKeys => ReadsFlag(d, st.saveSessionKeys, a);
    }
  }

  lemma ReadsPlace(d: Directive, st: PrefState, a: PrefState)
    requires Unset(d, a)
    requires d.PicFolder? || d.Sysop? || d.Url? || d.Website?
    ensures Reads(Emitted(d, st), a, Copied(d, Normal(st), a))
  {
    hide Reads, StringLine, IntLine, FlagLine, HexLine, OnLine, HashLine;
    hide Trim, CString, ParseInt, Quoted, Dec, Hex8, IsOn, NormalFormat, ToInt16, ToInt32, ToUint32;
    match d {
      case PicFolder => ReadsString(d, st.picFolder, a);
      case Sysop => ReadsString(d, st.sysop, a);
      case Url => ReadsString(d, st.url, a);
      case Website => ReadsString(d, st.website, a);
    }
  }

  lemma ReadsAbout(d: Directive, st: PrefState, a: PrefState)
    requires Unset(d, a)
    requires d.Motd? || d.Blurb? || d.HttpUrl?
    ensures Reads(Emitted(d, st), a, Copied(d, Normal(st), a))
  {
    hide Reads, StringLine, IntLine, FlagLine, HexLine, OnLine, HashLine;
    hide Trim, CString, ParseInt, Quoted, Dec, Hex8, IsOn, NormalFormat, ToInt16, ToInt32, ToUint32;
    match d {
      case Motd => TrimTwice(st.motd); ReadsString(d, Trim(st.motd), a);
      case Blurb => ReadsString(d, st.description, a);
      case HttpUrl => ReadsString(d, st.httpServer, a);
    }
  }

  lemma ReadsLogging(d: Directive, st: PrefState, a: PrefState)
    requires Unset(d, a)
    requires d.ChatLog? || d.ChatLogFile? || d.ChatLogNoWarn?
    ensures Reads(Emitted(d, st), a, Copied(d, Normal(st), a))
  {
    hide Reads, StringLine, IntLine, FlagLine, HexLine, OnLine, HashLine;
    hide Trim, CString, ParseInt, Quoted, Dec, Hex8, IsOn, NormalFormat, ToInt16, ToInt32, ToUint32;
    match d {
      case ChatLog => TrimTwice(st.chatLogTypes); ReadsString(d, Trim(st.chatLogTypes), a);
      case ChatLogFile => TrimTwice(st.chatLogFile); ReadsString(d, Trim(st.chatLogFile), a);
      case ChatLogNoWarn => ReadsFlag(d, st.chatLogNoWarn, a);
    }
  }

  lemma ReadsAnnounce(d: Directive, st: PrefState, a: PrefState)
    requires Unset(d, a)
    requires d.ChatLogFormat? || d.AutoAnnounce? || d.NoAutoRegister?
    ensures Reads(Emitted(d, st), a, Copied(d, Normal(st), a))
  {
    hide Reads, StringLine, IntLine, FlagLine, HexLine, OnLine, HashLine;
    hide Trim, CString, ParseInt, Quoted, Dec, Hex8, IsOn, NormalFormat, ToInt16, ToInt32, ToUint32;
    match d {
      case ChatLogFormat => ReadsFormat(st, a);
      case AutoAnnounce => ReadsString(d, st.autoAnnounce, a);
      case NoAutoRegister => ReadsFlag(d, st.noAutoRegister, a);
    }
  }


  // ---------- Directive by directive, then the whole file ----------

  /** A text that rebuilds a state still does after one more directive is written. */
  lemma Extend(w: bytes, a: PrefState, d: Directive, st: PrefState, b: PrefState)
    requires Rebuilds(w, a)
    requires Reads(Emitted(d, st), a, b)
    ensures Rebuilds(w + Text(d, st), b)
  {
    hide FoldState, Emitted, Known;
    var ls :| Clean(ls) && w == BANNER + Unlines(ls) && FoldState(ls, EMPTY) == a;
    var more := Emitted(d, st);
    UnlinesAppend(ls, more);
    FoldStateAppend(ls, more, EMPTY);
    var all := ls + more;
    assert Clean(all);
    hide Unlines;
    assert w + Text(d, st) == BANNER + Unlines(all);
  }

  lemma EmittedReads(d: Directive, st: PrefState, a: PrefState)
    requires Unset(d, a)
    ensures Reads(Emitted(d, st), a, Copied(d, Normal(st), a))
  {
    hide Unset, Reads, Normal, Trim;
    match d {
      case ServerName => ReadsIdentity(d, st, a);
      case WizardPassword => ReadsIdentity(d, st, a);
      case WizardPasswordHash => ReadsIdentity(d, st, a);
      case GodPassword => ReadsIdentity(d, st, a);
      case GodPasswordHash => ReadsIdentity(d, st, a);
      case HostPasswordHash => ReadsIdentity(d, st, a);
      case Permissions => ReadsLimits(d, st, a);
      case DeathPenalty => ReadsLimits(d, st, a);
      case MaxOccupancy => ReadsLimits(d, st, a);
      case RoomOccupancy => ReadsLimits(d, st, a);
      case MinFloodEvents => ReadsLimits(d, st, a);
      case PurgePropDays => ReadsUpkeep(d, st, a);
      case AutoPurge => ReadsUpkeep(d, st, a);
      case MaxSessionId => ReadsUpkeep(d, st, a);
      case ServerOptions => ReadsUpkeep(d, st, a);
      case SaveSessionKeys => ReadsUpkeep(d, st, a);
      case PicFolder => ReadsPlace(d, st, a);
      case Sysop => ReadsPlace(d, st, a);
      case Url => ReadsPlace(d, st, a);
      case Website => ReadsPlace(d, st, a);
      case Motd => ReadsAbout(d, st, a);
      case Blurb => ReadsAbout(d, st, a);
      case HttpUrl => ReadsAbout(d, st, a);
      case ChatLog => ReadsLogging(d, st, a);
      case ChatLogFile => ReadsLogging(d, st, a);
      case ChatLogNoWarn => ReadsLogging(d, st, a);
      case ChatLogFormat => ReadsAnnounce(d, st, a);
      case AutoAnnounce => ReadsAnnounce(d, st, a);
      case NoAutoRegister => ReadsAnnounce(d, st, a);
      case _ => ReadsNothing(a);
    }
  }

  lemma CopiedKeeps(d: Directive, e: Directive, n: PrefState, a: PrefState, x: PrefState)
    requires e != d && Same(e, a, x)
    ensures Same(e, Copied(d, n, a), x)
  {
    hide Same, Copied;
    match d {
      case ServerName => IdentityKeeps(d, e, n, a, x);
      case WizardPassword => IdentityKeeps(d, e, n, a, x);
      case WizardPasswordHash => IdentityKeeps(d, e, n, a, x);
      case GodPassword => IdentityKeeps(d, e, n, a, x);
      case GodPasswordHash => IdentityKeeps(d, e, n, a, x);
      case HostPasswordHash => IdentityKeeps(d, e, n, a, x);
      case Permissions => LimitsKeeps(d, e, n, a, x);
      case DeathPenalty => LimitsKeeps(d, e, n, a, x);
      case MaxOccupancy => LimitsKeeps(d, e, n, a, x);
      case RoomOccupancy => LimitsKeeps(d, e, n, a, x);
      case MinFloodEvents => LimitsKeeps(d, e, n, a, x);
      case PurgePropDays => UpkeepKeeps(d, e, n, a, x);
      case AutoPurge => UpkeepKeeps(d, e, n, a, x);
      case MaxSessionId => UpkeepKeeps(d, e, n, a, x);
      case ServerOptions => UpkeepKeeps(d, e, n, a, x);
      case SaveSessionKeys => UpkeepKeeps(d, e, n, a, x);
      case PicFolder => PlaceKeeps(d, e, n, a, x);
      case Sysop => PlaceKeeps(d, e, n, a, x);
      case Url => PlaceKeeps(d, e, n, a, x);
      case Website => PlaceKeeps(d, e, n, a, x);
      case Motd => AboutKeeps(d, e, n, a, x);
      case Blurb => AboutKeeps(d, e, n, a, x);
      case HttpUrl => AboutKeeps(d, e, n, a, x);
      case ChatLog => LoggingKeeps(d, e, n, a, x);
      case ChatLogFile => LoggingKeeps(d, e, n, a, x);
      case ChatLogNoWarn => LoggingKeeps(d, e, n, a, x);
      case ChatLogFormat => AnnounceKeeps(d, e, n, a, x);
      case AutoAnnounce => AnnounceKeeps(d, e, n, a, x);
      case NoAutoRegister => AnnounceKeeps(d, e, n, a, x);
      case _ => OtherCopiesNothing(d, n, a);
    }
  }

  lemma IdentityKeeps(d: Directive, e: Directive, n: PrefState, a: PrefState, x: PrefState)
    requires d.ServerName? || d.WizardPassword? || d.WizardPasswordHash? || d.GodPassword? || d.GodPasswordHash? || d.HostPasswordHash?
    requires e != d && Same(e, a, x)
    ensures Same(e, Copied(d, n, a), x)
  {
  }

  lemma LimitsKeeps(d: Directive, e: Directive, n: PrefState, a: PrefState, x: PrefState)
    requires d.Permissions? || d.DeathPenalty? || d.MaxOccupancy? || d.RoomOccupancy? || d.MinFloodEvents?
    requires e != d && Same(e, a, x)
    ensures Same(e, Copied(d, n, a), x)
  {
  }

  lemma UpkeepKeeps(d: Directive, e: Directive, n: PrefState, a: PrefState, x: PrefState)
    requires d.PurgePropDays? || d.AutoPurge? || d.MaxSessionId? || d.ServerOptions? || d.SaveSessionKeys?
    requires e != d && Same(e, a, x)
    ensures Same(e, Copied(d, n, a), x)
  {
  }

  lemma PlaceKeeps(d: Directive, e: Directive, n: PrefState, a: PrefState, x: PrefState)
    requires d.PicFolder? || d.Sysop? || d.Url? || d.Website?
    requires e != d && Same(e, a, x)
    ensures Same(e, Copied(d, n, a), x)
  {
  }

  lemma AboutKeeps(d: Directive, e: Directive, n: PrefState, a: PrefState, x: PrefState)
    requires d.Motd? || d.Blurb? || d.HttpUrl?
    requires e != d && Same(e, a, x)
    ensures Same(e, Copied(d, n, a), x)
  {
  }

  lemma LoggingKeeps(d: Directive, e: Directive, n: PrefState, a: PrefState, x: PrefState)
    requires d.ChatLog? || d.ChatLogFile? || d.ChatLogNoWarn?
    requires e != d && Same(e, a, x)
    ensures Same(e, Copied(d, n, a), x)
  {
  }

  lemma AnnounceKeeps(d: Directive, e: Directive, n: PrefState, a: PrefState, x: PrefState)
    requires d.ChatLogFormat? || d.AutoAnnounce? || d.NoAutoRegister?
    requires e != d && Same(e, a, x)
    ensures Same(e, Copied(d, n, a), x)
  {
  }

  lemma OtherCopiesNothing(d: Directive, n: PrefState, a: PrefState)
    requires d.MachineType? || d.YpMyExtAddr? || d.YpMyExtPort? || d.AutoRegister? || d.YpDirectoryList? || d.YpAddr? || d.Unrecognized?
    ensures Copied(d, n, a) == a
  {
  }

  lemma CopiedIsSame(d: Directive, n: PrefState, a: PrefState)
    ensures Same(d, Copied(d, n, a), n)
  {
  }

  /** The place of a directive in the printed file; the last place stands for "never printed". */
  function Rank(d: Directive): nat {
    match d
    case ServerName => 0
    case WizardPassword => 1
    case WizardPasswordHash => 2
    case GodPassword => 3
    case GodPasswordHash => 4
    case HostPasswordHash => 5
    case Permissions => 6
    case DeathPenalty => 7
    case MaxOccupancy => 8
    case RoomOccupancy => 9
    case MinFloodEvents => 10
    case PurgePropDays => 11
    case AutoPurge => 12
    case MaxSessionId => 13
    case ServerOptions => 14
    case SaveSessionKeys => 15
    case PicFolder => 16
    case Sysop => 17
    case Url => 18
    case Website => 19
    case Motd => 20
    case Blurb => 21
    case HttpUrl => 22
    case ChatLog => 23
    case ChatLogFile => 24
    case ChatLogNoWarn => 25
    case ChatLogFormat => 26
    case AutoAnnounce => 27
    case NoAutoRegister => 28
    case _ => 29
  }

  lemma RankInjective(d: Directive, e: Directive)
    requires Rank(d) == Rank(e) < 29
    ensures d == e
  {
  }

  /** The fields of the first k printed directives come from n, the others are still zero. */
  ghost predicate Progress(k: nat, n: PrefState, a: PrefState) {
    forall e :: Same(e, a, if Rank(e) < k then n else EMPTY)
  }

  /** One directive more: the text still rebuilds a state, and the state got that field. */
  lemma RebuildOne(w: bytes, a: PrefState, d: Directive, st: PrefState)
    returns (b: PrefState, t: bytes)
    requires Rank(d) < 29 && Rebuilds(w, a) && Progress(Rank(d), Normal(st), a)
    ensures t == w + Text(d, st)
    ensures Rebuilds(t, b) && Progress(Rank(d) + 1, Normal(st), b)
  {
    hide Rebuilds, Reads, Emitted, Text, Copied, Same, Normal, Rank;
    assert Same(d, a, EMPTY);
    EmittedReads(d, st, a);
    b, t := Copied(d, Normal(st), a), w + Text(d, st);
    Extend(w, a, d, st, b);
    CopiedIsSame(d, Normal(st), a);
    forall e ensures Same(e, b, if Rank(e) < Rank(d) + 1 then Normal(st) else EMPTY) {
      if e != d {
        if Rank(e) == Rank(d) {
          RankInjective(d, e);
        }
        CopiedKeeps(d, e, Normal(st), a, if Rank(e) < Rank(d) then Normal(st) else EMPTY);
      }
    }
  }

  lemma RebuildIdentity(w: bytes, start: PrefState, st: PrefState) returns (a: PrefState, t: bytes)
    requires Rebuilds(w, start) && Progress(0, Normal(st), start)
    ensures t == IdentityText(w, st) && Rebuilds(t, a) && Progress(6, Normal(st), a)
  {
    hide Rebuilds, Progress, Text, Normal;
    a, t := start, w;
    a, t := RebuildOne(t, a, ServerName, st);
    a, t := RebuildOne(t, a, WizardPassword, st);
    a, t := RebuildOne(t, a, WizardPasswordHash, st);
    a, t := RebuildOne(t, a, GodPassword, st);
    a, t := RebuildOne(t, a, GodPasswordHash, st);
    a, t := RebuildOne(t, a, HostPasswordHash, st);
  }

  lemma RebuildLimits(w: bytes, start: PrefState, st: PrefState) returns (a: PrefState, t: bytes)
    requires Rebuilds(w, start) && Progress(6, Normal(st), start)
    ensures t == LimitsText(w, st) && Rebuilds(t, a) && Progress(11, Normal(st), a)
  {
    hide Rebuilds, Progress, Text, Normal;
    a, t := start, w;
    a, t := RebuildOne(t, a, Permissions, st);
    a, t := RebuildOne(t, a, DeathPenalty, st);
    a, t := RebuildOne(t, a, MaxOccupancy, st);
    a, t := RebuildOne(t, a, RoomOccupancy, st);
    a, t := RebuildOne(t, a, MinFloodEvents, st);
  }

  lemma RebuildUpkeep(w: bytes, start: PrefState, st: PrefState) returns (a: PrefState, t: bytes)
    requires Rebuilds(w, start) && Progress(11, Normal(st), start)
    ensures t == UpkeepText(w, st) && Rebuilds(t, a) && Progress(16, Normal(st), a)
  {
    hide Rebuilds, Progress, Text, Normal;
    a, t := start, w;
    a, t := RebuildOne(t, a, PurgePropDays, st);
    a, t := RebuildOne(t, a, AutoPurge, st);
    a, t := RebuildOne(t, a, MaxSessionId, st);
    a, t := RebuildOne(t, a, ServerOptions, st);
    a, t := RebuildOne(t, a, SaveSessionKeys, st);
  }

  lemma RebuildPlace(w: bytes, start: PrefState, st: PrefState) returns (a: PrefState, t: bytes)
    requires Rebuilds(w, start) && Progress(16, Normal(st), start)
    ensures t == PlaceText(w, st) && Rebuilds(t, a) && Progress(20, Normal(st), a)
  {
    hide Rebuilds, Progress, Text, Normal;
    a, t := start, w;
    a, t := RebuildOne(t, a, PicFolder, st);
    a, t := RebuildOne(t, a, Sysop, st);
    a, t := RebuildOne(t, a, Url, st);
    a, t := RebuildOne(t, a, Website, st);
  }

  lemma RebuildAbout(w: bytes, start: PrefState, st: PrefState) returns (a: PrefState, t: bytes)
    requires Rebuilds(w, start) && Progress(20, Normal(st), start)
    ensures t == AboutText(w, st) && Rebuilds(t, a) && Progress(23, Normal(st), a)
  {
    hide Rebuilds, Progress, Text, Normal;
    a, t := start, w;
    a, t := RebuildOne(t, a, Motd, st);
    a, t := RebuildOne(t, a, Blurb, st);
    a, t := RebuildOne(t, a, HttpUrl, st);
  }

  lemma RebuildLogging(w: bytes, start: PrefState, st: PrefState) returns (a: PrefState, t: bytes)
    requires Rebuilds(w, start) && Progress(23, Normal(st), start)
    ensures t == LoggingText(w, st) && Rebuilds(t, a) && Progress(26, Normal(st), a)
  {
    hide Rebuilds, Progress, Text, Normal;
    a, t := start, w;
    a, t := RebuildOne(t, a, ChatLog, st);
    a, t := RebuildOne(t, a, ChatLogFile, st);
    a, t := RebuildOne(t, a, ChatLogNoWarn, st);
  }

  lemma RebuildAnnounce(w: bytes, start: PrefState, st: PrefState) returns (a: PrefState, t: bytes)
    requires Rebuilds(w, start) && Progress(26, Normal(st), start)
    ensures t == AnnounceText(w, st) && Rebuilds(t, a) && Progress(29, Normal(st), a)
  {
    hide Rebuilds, Progress, Text, Normal;
    a, t := start, w;
    a, t := RebuildOne(t, a, ChatLogFormat, st);
    a, t := RebuildOne(t, a, AutoAnnounce, st);
    a, t := RebuildOne(t, a, NoAutoRegister, st);
  }

  lemma StartProgress(n: PrefState)
    ensures Progress(0, n, EMPTY)
  {
  }

  lemma FirstFields(a: PrefState, n: PrefState)
    requires forall e :: Same(e, a, n)
    ensures a.serverName == n.serverName
    ensures a.wizardPlain == n.wizardPlain
    ensures a.wizardHash == n.wizardHash
    ensures a.godPlain == n.godPlain
    ensures a.godHash == n.godHash
    ensures a.hostPasswordHash == n.hostPasswordHash
    ensures a.permissions == n.permissions
    ensures a.deathPenaltyMinutes == n.deathPenaltyMinutes
    ensures a.maxOccupancy == n.maxOccupancy
    ensures a.roomOccupancy == n.roomOccupancy
  {
    assert Same(ServerName, a, n);
    assert Same(WizardPassword, a, n);
    assert Same(WizardPasswordHash, a, n);
    assert Same(GodPassword, a, n);
    assert Same(GodPasswordHash, a, n);
    assert Same(HostPasswordHash, a, n);
    assert Same(Permissions, a, n);
    assert Same(DeathPenalty, a, n);
    assert Same(MaxOccupancy, a, n);
    assert Same(RoomOccupancy, a, n);
  }

  lemma SecondFields(a: PrefState, n: PrefState)
    requires forall e :: Same(e, a, n)
    ensures a.minFloodEvents == n.minFloodEvents
    ensures a.purgePropDays == n.purgePropDays
    ensures a.autoPurge == n.autoPurge
    ensures a.recycleLimit == n.recycleLimit
    ensures a.serverOptions == n.serverOptions
    ensures a.saveSessionKeys == n.saveSessionKeys
  {
    assert Same(MinFloodEvents, a, n);
    assert Same(PurgePropDays, a, n);
    assert Same(AutoPurge, a, n);
    assert Same(MaxSessionId, a, n);
    assert Same(ServerOptions, a, n);
    assert Same(SaveSessionKeys, a, n);
  }

  lemma ThirdFields(a: PrefState, n: PrefState)
    requires forall e :: Same(e, a, n)
    ensures a.picFolder == n.picFolder
    ensures a.sysop == n.sysop
    ensures a.url == n.url
    ensures a.website == n.website
    ensures a.motd == n.motd
  {
    assert Same(PicFolder, a, n);
    assert Same(Sysop, a, n);
    assert Same(Url, a, n);
    assert Same(Website, a, n);
    assert Same(Motd, a, n);
  }

  lemma FourthFields(a: PrefState, n: PrefState)
    requires forall e :: Same(e, a, n)
    ensures a.description == n.description
    ensures a.httpServer == n.httpServer
    ensures a.chatLogTypes == n.chatLogTypes
    ensures a.chatLogFile == n.chatLogFile
  {
    assert Same(Blurb, a, n);
    assert Same(HttpUrl, a, n);
    assert Same(ChatLog, a, n);
    assert Same(ChatLogFile, a, n);
  }

  lemma LastFields(a: PrefState, n: PrefState)
    requires forall e :: Same(e, a, n)
    ensures a.chatLogNoWarn == n.chatLogNoWarn
    ensures a.chatLogFormat == n.chatLogFormat
    ensures a.autoAnnounce == n.autoAnnounce
    ensures a.noAutoRegister == n.noAutoRegister
  {
    assert Same(ChatLogNoWarn, a, n);
    assert Same(ChatLogFormat, a, n);
    assert Same(AutoAnnounce, a, n);
    assert Same(NoAutoRegister, a, n);
  }

  lemma Finished(a: PrefState, n: PrefState)
    requires Progress(29, n, a)
    ensures a == n
  {
    forall e ensures Same(e, a, n) {
      assert Same(e, a, if Rank(e) < 29 then n else EMPTY);
    }
    hide Same;
    FirstFields(a, n);
    SecondFields(a, n);
    ThirdFields(a, n);
    FourthFields(a, n);
    LastFields(a, n);
  }

  /** The printed text is the banner and lines that rebuild the normal form. */
  lemma RenderedRebuilds(st: PrefState)
    ensures Rebuilds(Rendered(st), Normal(st))
  {
    BannerRebuilds();
    StartProgress(Normal(st));
    hide Rebuilds, Progress, Normal;
    hide IdentityText, LimitsText, UpkeepText, PlaceText, AboutText, LoggingText, AnnounceText;
    var a, t := EMPTY, BANNER;
    a, t := RebuildIdentity(t, a, st);
    a, t := RebuildLimits(t, a, st);
    a, t := RebuildUpkeep(t, a, st);
    a, t := RebuildPlace(t, a, st);
    a, t := RebuildAbout(t, a, st);
    a, t := RebuildLogging(t, a, st);
    a, t := RebuildAnnounce(t, a, st);
    Finished(a, Normal(st));
  }

  lemma BannerRebuilds()
    ensures Rebuilds(BANNER, EMPTY)
  {
    assert Clean([]) && BANNER == BANNER + Unlines([]) && FoldState([], EMPTY) == EMPTY;
  }

  // ---------- Main results ----------

  const BANNER_LINES: seq<bytes> := ["; Server Prefs", ";"]

  lemma BannerIsLines()
    ensures BANNER == Unlines(BANNER_LINES) && NewlineFree(BANNER_LINES) && NoCrEnd(BANNER_LINES)
  {
  }

  lemma ScanBanner(more: seq<bytes>)
    ensures ScanLines(START, BANNER_LINES + more, 0) == ScanLines(START, more, 2)
  {
    BannerIsTrimmed();
    hide Trim, SplitFirstToken, Recognize;
    assert ScanLine(START, BANNER_LINES[0], 0) == START;
    assert ScanLine(START, BANNER_LINES[1], 1) == START;
    var ls := BANNER_LINES + more;
    assert ls[1..][1..] == more;
    hide ScanLine;
    assert ScanLines(START, ls, 0) == ScanLines(START, ls[1..], 1);
    assert ScanLines(START, ls[1..], 1) == ScanLines(START, ls[1..][1..], 2);
  }

  lemma BannerIsTrimmed()
    ensures Trim(BANNER_LINES[0]) == BANNER_LINES[0] && Trim(BANNER_LINES[1]) == BANNER_LINES[1]
  {
    hide Trim;
    var first := BANNER_LINES[0];
    assert first[0] == ';' && first[|first| - 1] == 's';
    TrimFixed(first);
    TrimFixed(BANNER_LINES[1]);
  }

  /** A rendered file is longer than its banner: PERMISSIONS is always written. */
  lemma RenderedIsLonger(st: PrefState)
    ensures |Rendered(st)| > |BANNER|
  {
    PermissionsText(st);
    hide Text;
  }

  lemma PermissionsText(st: PrefState)
    ensures Text(Permissions, st) != ""
  {
    hide Hex8, Word;
    OneLine(Line(Permissions, Hex8(st.permissions)));
  }

  lemma RenderedBody(st: PrefState) returns (body: seq<bytes>)
    ensures Clean(body) && body != [] && FoldState(body, EMPTY) == Normal(st)
    ensures Rendered(st) == Unlines(BANNER_LINES + body)
  {
    RenderedRebuilds(st);
    RenderedIsLonger(st);
    hide Rendered, Normal, Known, FoldState;
    body :| Clean(body) && Rendered(st) == BANNER + Unlines(body) && FoldState(body, EMPTY) == Normal(st);
    assert body == [] ==> Unlines(body) == "";
    hide Unlines;
    BannerIsLines();
    UnlinesAppend(BANNER_LINES, body);
  }

  lemma ScanBody(body: seq<bytes>, more: seq<bytes>)
    requires Clean(body) && body != []
    ensures ScanLines(START, BANNER_LINES + body + more, 0)
         == ScanLines(Scan(FoldState(body, EMPTY), [], [], true), more, |BANNER_LINES + body|)
  {
    hide Known, FoldState, ScanLines;
    assert BANNER_LINES + body + more == BANNER_LINES + (body + more);
    ScanBanner(body + more);
    ScanLinesAppend(START, body, more, 2);
    ScanKnownLines(START, body, 2);
  }

  /** The lines of a rendered file, and what scanning them does. */
  lemma RenderedScan(st: PrefState) returns (ls: seq<bytes>)
    ensures Rendered(st) == Unlines(ls) && NewlineFree(ls) && NoCrEnd(ls)
    ensures forall more :: ScanLines(START, ls + more, 0) == ScanLines(Scan(Normal(st), [], [], true), more, |ls|)
  {
    hide Rendered, Normal, Unlines, Known, FoldState, ScanLines;
    var body := RenderedBody(st);
    BannerIsLines();
    ls := BANNER_LINES + body;
    forall more ensures ScanLines(START, ls + more, 0) == ScanLines(Scan(Normal(st), [], [], true), more, |ls|) {
      ScanBody(body, more);
    }
  }

  /** Parsing undoes rendering, up to the normal form, with nothing left over and no complaint. */
  lemma RoundTrip(st: PrefState)
    ensures ParseText(Rendered(st)) == ParsedPrefs(Normal(st), "", [])
  {
    var ls := RenderedScan(st);
    hide Rendered, Normal;
    DropCrUnlines(ls);
    StripCrFixed(ls);
    LinesOfUnlines(ls);
    assert ScanLines(START, ls + [""], 0) == ScanLines(Scan(Normal(st), [], [], true), [""], |ls|);
    ScanBlank(Scan(Normal(st), [], [], true), |ls|);
  }

  lemma ScanBlank(a: Scan, ln: nat)
    ensures ScanLines(a, [""], ln) == a
  {
    var ls: seq<bytes> := [""];
    assert ls[1..] == [];
    assert Trim("") == "";
    assert ScanLine(a, "", ln) == a;
  }

  lemma HashNormal(d: Directive, plain: bytes, hash: bytes)
    ensures HashLine(d, plain, if plain != "" then "" else Trim(hash)) == HashLine(d, plain, hash)
  {
    TrimTwice(hash);
    hide Trim, StringLine;
  }

  lemma EmittedNormal(d: Directive, st: PrefState)
    ensures Emitted(d, Normal(st)) == Emitted(d, st)
  {
    HashNormal(d, st.wizardPlain, st.wizardHash);
    HashNormal(d, st.godPlain, st.godHash);
    TrimTwice(st.hostPasswordHash);
    TrimTwice(st.motd);
    TrimTwice(st.chatLogTypes);
    TrimTwice(st.chatLogFile);
    NormalFormatIdempotent(st.chatLogTypes, st.chatLogFormat);
    hide Trim, NormalFormat, StringLine, IntLine, FlagLine, HexLine, OnLine, HashLine;
  }

  /** A state and its normal form render to the same bytes. */
  lemma RenderedNormal(st: PrefState)
    ensures Rendered(Normal(st)) == Rendered(st)
  {
    forall d ensures Text(d, Normal(st)) == Text(d, st) {
      EmittedNormal(d, st);
    }
    hide Text, Normal;
  }

  /** Two states render to the same bytes exactly when they have the same normal form. */
  lemma RenderedInjective(a: PrefState, b: PrefState)
    ensures Rendered(a) == Rendered(b) <==> Normal(a) == Normal(b)
  {
    hide Rendered, Normal, ParseText;
    RoundTrip(a);
    RoundTrip(b);
    RenderedNormal(a);
    RenderedNormal(b);
  }
}
