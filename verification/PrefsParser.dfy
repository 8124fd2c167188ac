/** The line parser of pserver.prefs (internal/pserverprefs/parse_form.go). */
module PrefsParser {
  import opened Wrappers
  import opened Bytes
  import opened Numbers
  import opened PalaceString
  import opened PrefsState
  import opened PrefsDirectives

  // ---------- Words and numbers ----------

  /** strings.IndexAny(s, " \t"), or the length when there is none. */
  function IndexBlank(s: bytes): (i: nat)
    ensures i <= |s| && forall j :: 0 <= j < i ==> s[j] != ' ' && s[j] != '\t'
    ensures i < |s| ==> s[i] == ' ' || s[i] == '\t'
  {
    if s == [] || s[0] == ' ' || s[0] == '\t' then 0 else 1 + IndexBlank(s[1..])
  }

  datatype Split = Split(token: bytes, rest: bytes)

  function SplitFirstToken(text: bytes): Split {
    var line := Trim(text);
    if line == [] then Split("", "")
    else
      var i := IndexBlank(line);
      if i == |line| then Split(ToUpper(line), "") else Split(line[..i], Trim(line[i..]))
  }

  function IndexSpace(s: bytes): (i: nat)
    ensures i <= |s|
  {
    if s == [] || IsSpace(s[0]) then 0 else 1 + IndexSpace(s[1..])
  }

  /** strings.Fields(s)[0], or "" when there are no fields. */
  function FirstToken(s: bytes): bytes {
    var t := TrimLeft(s);
    t[..IndexSpace(t)]
  }

  function ParseInt(text: bytes): int {
    var s := Trim(text);
    if s == [] then 0
    else if |s| > 2 && s[0] == '0' && (s[1] == 'x' || s[1] == 'X') then
      UintOrClamp(s[2..], 16, 0xFFFF_FFFF)
    else Atoi(s).v
  }

  function CString(rest: bytes): Option<bytes> {
    Decoded(Trim(rest))
  }

  function StringOr(rest: bytes, previous: bytes): bytes {
    match CString(rest)
    case Some(s) => s
    case None => previous
  }

  function TrimmedStringOr(rest: bytes, previous: bytes): bytes {
    match CString(rest)
    case Some(s) => Trim(s)
    case None => previous
  }

  function IsOn(rest: bytes): bool {
    var tok := ToLower(Trim(FirstToken(rest)));
    tok == "on" || tok == "1" || tok == "true" || tok == "yes"
  }

  // ---------- One line ----------

  /** The effect of a recognized directive on the state. */
  function Apply(d: Directive, rest: bytes, st: PrefState): PrefState {
    match d
    case ServerName => st.(serverName := StringOr(rest, st.serverName))
    case WizardPassword => st.(wizardPlain := StringOr(rest, st.wizardPlain))
    case WizardPasswordHash => st.(wizardHash := TrimmedStringOr(rest, st.wizardHash))
    case GodPassword => st.(godPlain := StringOr(rest, st.godPlain))
    case GodPasswordHash => st.(godHash := TrimmedStringOr(rest, st.godHash))
    case HostPasswordHash => st.(hostPasswordHash := TrimmedStringOr(rest, st.hostPasswordHash))
    case PicFolder => st.(picFolder := StringOr(rest, st.picFolder))
    case MaxSessionId => st.(recycleLimit := ToInt32(ParseInt(rest)))
    case ServerOptions => st.(serverOptions := ToUint32(ParseInt(rest)))
    case SaveSessionKeys => st.(saveSessionKeys := true)
    case Permissions => st.(permissions := ToUint32(ParseInt(rest)))
    case DeathPenalty => st.(deathPenaltyMinutes := ToInt16(ParseInt(rest)))
    case MaxOccupancy => st.(maxOccupancy := ToInt16(ParseInt(rest)))
    case RoomOccupancy => st.(roomOccupancy := ToInt16(ParseInt(rest)))
    case MinFloodEvents => st.(minFloodEvents := ToInt16(ParseInt(rest)))
    case PurgePropDays => st.(purgePropDays := ToInt16(ParseInt(rest)))
    case AutoPurge => st.(autoPurge := IsOn(rest))
    case Sysop => st.(sysop := StringOr(rest, st.sysop))
    case Url => st.(url := StringOr(rest, st.url))
    case Website => st.(website := StringOr(rest, st.website))
    case Motd => st.(motd := StringOr(rest, st.motd))
    case Blurb => st.(description := StringOr(rest, st.description))
    case HttpUrl => st.(httpServer := StringOr(rest, st.httpServer))
    case AutoAnnounce => st.(autoAnnounce := StringOr(rest, st.autoAnnounce))
    case ChatLog => st.(chatLogTypes := TrimmedStringOr(rest, st.chatLogTypes))
    case ChatLogFile => st.(chatLogFile := TrimmedStringOr(rest, st.chatLogFile))
    case ChatLogNoWarn => st.(chatLogNoWarn := true)
    case ChatLogFormat => st.(chatLogFormat := TrimmedStringOr(rest, st.chatLogFormat))
    case NoAutoRegister => st.(noAutoRegister := true)
    case _ => st
  }

  datatype Warning = Unparsed(line: nat) | BadServerName(line: nat)

  /** The variables of the parsing loop. */
  datatype Scan = Scan(st: PrefState, unknown: seq<bytes>, warnings: seq<Warning>, bannerDone: bool)

  const START: Scan := Scan(EMPTY, [], [], false)

  predicate IsBanner(line: bytes) {
    line == "; Server Prefs" || line == ";"
  }

  function ScanLine(a: Scan, raw: bytes, ln: nat): Scan {
    var line := Trim(raw);
    if line == "" || (!a.bannerDone && IsBanner(line)) then a
    else
      var b := a.(bannerDone := true);
      if HasPrefix(line, ";") then b.(unknown := a.unknown + [raw])
      else
        var s := SplitFirstToken(line);
        if s.token == "" then b.(warnings := a.warnings + [Unparsed(ln + 1)], unknown := a.unknown + [raw])
        else
          var d := Recognize(ToUpper(s.token));
          if d == Unrecognized then b.(unknown := a.unknown + [raw])
          else if d == ServerName && CString(s.rest) == None then
            b.(warnings := a.warnings + [BadServerName(ln + 1)])
          else b.(st := Apply(d, s.rest, a.st))
  }

  function ScanLines(a: Scan, ls: seq<bytes>, ln: nat): Scan
    decreases |ls|
  {
    if ls == [] then a else ScanLines(ScanLine(a, ls[0], ln), ls[1..], ln + 1)
  }

  /** What the parser returns. */
  datatype ParsedPrefs = ParsedPrefs(st: PrefState, unknownTail: bytes, warnings: seq<Warning>)

  /** The whole text: carriage returns dropped, split into lines, scanned line by line. */
  function ParseText(content: bytes): ParsedPrefs {
    var a := ScanLines(START, Lines(DropCr(content)), 0);
    ParsedPrefs(a.st, JoinLines(a.unknown), a.warnings)
  }

  method ParsePrefState(content: bytes) returns (st: PrefState, unknownTail: bytes, warnings: seq<Warning>)
    ensures ParsedPrefs(st, unknownTail, warnings) == ParseText(content)
  {
    hide Trim, Lines, DropCr, JoinLines, SplitFirstToken, Recognize, CString;
    st, warnings := EMPTY, [];
    var unknown: seq<bytes> := [];
    var lines := Lines(DropCr(content));
    var bannerDone := false;
    for ln := 0 to |lines|
      invariant ScanLines(Scan(st, unknown, warnings, bannerDone), lines[ln..], ln) == ScanLines(START, lines, 0)
    {
      var raw := lines[ln];
      assert lines[ln..][0] == raw && lines[ln..][1..] == lines[ln + 1..];
      var line := Trim(raw);
      if line == "" {
        continue;
      }
      if !bannerDone {
        if line == "; Server Prefs" || line == ";" {
          continue;
        }
        bannerDone := true;
      }
      if HasPrefix(line, ";") {
        unknown := unknown + [raw];
        continue;
      }
      var s := SplitFirstToken(line);
      if s.token == "" {
        warnings := warnings + [Unparsed(ln + 1)];
        unknown := unknown + [raw];
        continue;
      }
      var d := Recognize(ToUpper(s.token));
      match d {
        case ServerName =>
          match CString(s.rest) {
            case Some(name) => st := st.(serverName := name);
            case None => warnings := warnings + [BadServerName(ln + 1)];
          }
        case Unrecognized =>
          unknown := unknown + [raw];
        case _ =>
          st := Apply(d, s.rest, st);
      }
    }
    assert lines[|lines|..] == [];
    unknownTail := JoinLines(unknown);
  }
}
