/** The printer of pserver.prefs (internal/pserverprefs/render_form.go). */
module PrefsRenderer {
  import opened Wrappers
  import opened Bytes
  import opened Numbers
  import opened PalaceString
  import opened PrefsState
  import opened D = PrefsDirectives

  function Spaces(n: nat): (r: bytes)
    ensures |r| == n && AllSpace(r) && NoNewline(r) && '\r' !in r
  {
    seq(n, _ => ' ')
  }

  /** fmt's 0x%-8X: at least eight columns, padded on the right. */
  function Hex8(v: uint32): bytes {
    var d := Digits(v, 16);
    "0x" + d + Spaces(if |d| < 8 then 8 - |d| else 0)
  }

  function Line(d: D.Directive, arg: bytes): bytes {
    Word(d) + " " + arg
  }

  function StringLine(d: D.Directive, v: bytes): seq<bytes> {
    if v != "" then [Line(d, Quoted(v))] else []
  }

  function IntLine(d: D.Directive, v: int): seq<bytes> {
    if v != 0 then [Line(d, Dec(v))] else []
  }

  function FlagLine(d: D.Directive, v: bool): seq<bytes> {
    if v then [Word(d)] else []
  }

  /** A password hash is dropped when there is a plain password. */
  function HashLine(d: D.Directive, plain: bytes, hash: bytes): seq<bytes> {
    if plain != "" then [] else StringLine(d, Trim(hash))
  }

  function HexLine(d: D.Directive, v: uint32, condition: bool): seq<bytes> {
    if condition then [Line(d, Hex8(v))] else []
  }

  function OnLine(d: D.Directive, v: bool): seq<bytes> {
    if v then [Line(d, "ON")] else []
  }

  /** The lines one directive contributes: none or one. */
  function Emitted(d: D.Directive, st: PrefState): seq<bytes> {
    match d
    case ServerName => StringLine(d, st.serverName)
    case WizardPassword => StringLine(d, st.wizardPlain)
    case WizardPasswordHash => HashLine(d, st.wizardPlain, st.wizardHash)
    case GodPassword => StringLine(d, st.godPlain)
    case GodPasswordHash => HashLine(d, st.godPlain, st.godHash)
    case HostPasswordHash => StringLine(d, Trim(st.hostPasswordHash))
    case Permissions => HexLine(d, st.permissions, true)
    case DeathPenalty => IntLine(d, st.deathPenaltyMinutes)
    case MaxOccupancy => IntLine(d, st.maxOccupancy)
    case RoomOccupancy => IntLine(d, st.roomOccupancy)
    case MinFloodEvents => IntLine(d, st.minFloodEvents)
    case PurgePropDays => IntLine(d, st.purgePropDays)
    case AutoPurge => OnLine(d, st.autoPurge)
    case MaxSessionId => IntLine(d, st.recycleLimit)
    case ServerOptions => HexLine(d, st.serverOptions, st.serverOptions != 0)
    case SaveSessionKeys => FlagLine(d, st.saveSessionKeys)
    case PicFolder => StringLine(d, st.picFolder)
    case Sysop => StringLine(d, st.sysop)
    case Url => StringLine(d, st.url)
    case Website => StringLine(d, st.website)
    case Motd => StringLine(d, Trim(st.motd))
    case Blurb => StringLine(d, st.description)
    case HttpUrl => StringLine(d, st.httpServer)
    case ChatLog => StringLine(d, Trim(st.chatLogTypes))
    case ChatLogFile => StringLine(d, Trim(st.chatLogFile))
    case ChatLogNoWarn => FlagLine(d, st.chatLogNoWarn)
    case ChatLogFormat => StringLine(d, NormalFormat(st.chatLogTypes, st.chatLogFormat))
    case AutoAnnounce => StringLine(d, st.autoAnnounce)
    case NoAutoRegister => FlagLine(d, st.noAutoRegister)
    case _ => []
  }

  /** The text one directive contributes. */
  function Text(d: D.Directive, st: PrefState): bytes {
    Unlines(Emitted(d, st))
  }

  /** Name and passwords. */
  function IdentityText(w: bytes, st: PrefState): bytes {
    w
    + Text(D.ServerName, st)
    + Text(D.WizardPassword, st)
    + Text(D.WizardPasswordHash, st)
    + Text(D.GodPassword, st)
    + Text(D.GodPasswordHash, st)
    + Text(D.HostPasswordHash, st)
  }

  /** Permissions and occupancy. */
  function LimitsText(w: bytes, st: PrefState): bytes {
    w
    + Text(D.Permissions, st)
    + Text(D.DeathPenalty, st)
    + Text(D.MaxOccupancy, st)
    + Text(D.RoomOccupancy, st)
    + Text(D.MinFloodEvents, st)
  }

  /** Purging, sessions and server options. */
  function UpkeepText(w: bytes, st: PrefState): bytes {
    w
    + Text(D.PurgePropDays, st)
    + Text(D.AutoPurge, st)
    + Text(D.MaxSessionId, st)
    + Text(D.ServerOptions, st)
    + Text(D.SaveSessionKeys, st)
  }

  /** Folder, operator and addresses. */
  function PlaceText(w: bytes, st: PrefState): bytes {
    w
    + Text(D.PicFolder, st)
    + Text(D.Sysop, st)
    + Text(D.Url, st)
    + Text(D.Website, st)
  }

  /** Descriptive strings. */
  function AboutText(w: bytes, st: PrefState): bytes {
    w
    + Text(D.Motd, st)
    + Text(D.Blurb, st)
    + Text(D.HttpUrl, st)
  }

  /** Chat log. */
  function LoggingText(w: bytes, st: PrefState): bytes {
    w
    + Text(D.ChatLog, st)
    + Text(D.ChatLogFile, st)
    + Text(D.ChatLogNoWarn, st)
  }

  /** Log format and directory announcements. */
  function AnnounceText(w: bytes, st: PrefState): bytes {
    w
    + Text(D.ChatLogFormat, st)
    + Text(D.AutoAnnounce, st)
    + Text(D.NoAutoRegister, st)
  }

  /** The whole file. */
  function Rendered(st: PrefState): bytes {
    AnnounceText(LoggingText(AboutText(PlaceText(UpkeepText(LimitsText(IdentityText("; Server Prefs\n;\n", st), st), st), st), st), st), st)
  }

  // ---------- The printer's writes ----------

  lemma OneLine(line: bytes)
    ensures Unlines([line]) == line + "\n"
  {
    assert Unlines([line]) == line + "\n" + [];
  }

  /** fmt.Fprintf(&w, "NAME %s\n", palaceQuoted(v)), guarded by v != "". */
  method WriteString(w: bytes, d: D.Directive, v: bytes) returns (r: bytes)
    ensures r == w + Unlines(StringLine(d, v))
  {
    r := w;
    if v != "" {
      var q := PalaceQuoted(v);
      r := r + (Word(d) + " " + q + "\n");
      OneLine(Line(d, q));
    }
  }

  /** fmt.Fprintf(&w, "NAME %d\n", v), guarded by v != 0. */
  method WriteInt(w: bytes, d: D.Directive, v: int) returns (r: bytes)
    ensures r == w + Unlines(IntLine(d, v))
  {
    r := w;
    if v != 0 {
      r := r + (Word(d) + " " + Dec(v) + "\n");
      OneLine(Line(d, Dec(v)));
    }
  }

  /** w.WriteString("NAME\n"), guarded by v. */
  method WriteFlag(w: bytes, d: D.Directive, v: bool) returns (r: bytes)
    ensures r == w + Unlines(FlagLine(d, v))
  {
    r := w;
    if v {
      r := r + (Word(d) + "\n");
      OneLine(Word(d));
    }
  }

  /** A password hash, written only when there is no plain password. */
  method WriteHash(w: bytes, d: D.Directive, plain: bytes, hash: bytes) returns (r: bytes)
    ensures r == w + Unlines(HashLine(d, plain, hash))
  {
    r := w;
    if plain == "" {
      r := WriteString(r, d, Trim(hash));
    }
  }

  /** fmt.Fprintf(&w, "NAME 0x%-8X\n", v), guarded by the condition. */
  method WriteHex(w: bytes, d: D.Directive, v: uint32, condition: bool) returns (r: bytes)
    ensures r == w + Unlines(HexLine(d, v, condition))
  {
    r := w;
    if condition {
      r := r + (Word(d) + " " + Hex8(v) + "\n");
      OneLine(Line(d, Hex8(v)));
    }
  }

  method WriteOn(w: bytes, d: D.Directive, v: bool) returns (r: bytes)
    ensures r == w + Unlines(OnLine(d, v))
  {
    r := w;
    if v {
      r := r + (Word(d) + " ON\n");
      OneLine(Line(d, "ON"));
    }
  }

  method WriteFormat(w: bytes, d: D.Directive, types: bytes, format: bytes) returns (r: bytes)
    ensures r == w + Unlines(StringLine(d, NormalFormat(types, format)))
  {
    r := w;
    if Trim(types) != "" && Trim(format) != "" {
      var f := Trim(format);
      if EqualFold(f, "csv") {
        r := WriteString(r, d, "csv");
      } else {
        r := WriteString(r, d, "json");
      }
    }
  }

  method RenderPrefState(st: PrefState) returns (w: bytes)
    ensures w == Rendered(st)
  {
    hide IdentityText, LimitsText, UpkeepText, PlaceText, AboutText, LoggingText, AnnounceText;
    w := "; Server Prefs\n;\n";
    w := RenderIdentity(st, w);
    w := RenderLimits(st, w);
    w := RenderUpkeep(st, w);
    w := RenderPlace(st, w);
    w := RenderAbout(st, w);
    w := RenderLogging(st, w);
    w := RenderAnnounce(st, w);
  }

  method RenderIdentity(st: PrefState, text: bytes) returns (w: bytes)
    ensures w == IdentityText(text, st)
  {
    hide Unlines, StringLine, IntLine, FlagLine, HashLine, HexLine, OnLine, NormalFormat, Trim;
    w := text;
    w := WriteString(w, D.ServerName, st.serverName);
    w := WriteString(w, D.WizardPassword, st.wizardPlain);
    w := WriteHash(w, D.WizardPasswordHash, st.wizardPlain, st.wizardHash);
    w := WriteString(w, D.GodPassword, st.godPlain);
    w := WriteHash(w, D.GodPasswordHash, st.godPlain, st.godHash);
    w := WriteString(w, D.HostPasswordHash, Trim(st.hostPasswordHash));
  }

  method RenderLimits(st: PrefState, text: bytes) returns (w: bytes)
    ensures w == LimitsText(text, st)
  {
    hide Unlines, StringLine, IntLine, FlagLine, HashLine, HexLine, OnLine, NormalFormat, Trim;
    w := text;
    w := WriteHex(w, D.Permissions, st.permissions, true);
    w := WriteInt(w, D.DeathPenalty, st.deathPenaltyMinutes);
    w := WriteInt(w, D.MaxOccupancy, st.maxOccupancy);
    w := WriteInt(w, D.RoomOccupancy, st.roomOccupancy);
    w := WriteInt(w, D.MinFloodEvents, st.minFloodEvents);
  }

  method RenderUpkeep(st: PrefState, text: bytes) returns (w: bytes)
    ensures w == UpkeepText(text, st)
  {
    hide Unlines, StringLine, IntLine, FlagLine, HashLine, HexLine, OnLine, NormalFormat, Trim;
    w := text;
    w := WriteInt(w, D.PurgePropDays, st.purgePropDays);
    w := WriteOn(w, D.AutoPurge, st.autoPurge);
    w := WriteInt(w, D.MaxSessionId, st.recycleLimit);
    w := WriteHex(w, D.ServerOptions, st.serverOptions, st.serverOptions != 0);
    w := WriteFlag(w, D.SaveSessionKeys, st.saveSessionKeys);
  }

  method RenderPlace(st: PrefState, text: bytes) returns (w: bytes)
    ensures w == PlaceText(text, st)
  {
    hide Unlines, StringLine, IntLine, FlagLine, HashLine, HexLine, OnLine, NormalFormat, Trim;
    w := text;
    w := WriteString(w, D.PicFolder, st.picFolder);
    w := WriteString(w, D.Sysop, st.sysop);
    w := WriteString(w, D.Url, st.url);
    w := WriteString(w, D.Website, st.website);
  }

  method RenderAbout(st: PrefState, text: bytes) returns (w: bytes)
    ensures w == AboutText(text, st)
  {
    hide Unlines, StringLine, IntLine, FlagLine, HashLine, HexLine, OnLine, NormalFormat, Trim;
    w := text;
    w := WriteString(w, D.Motd, Trim(st.motd));
    w := WriteString(w, D.Blurb, st.description);
    w := WriteString(w, D.HttpUrl, st.httpServer);
  }

  method RenderLogging(st: PrefState, text: bytes) returns (w: bytes)
    ensures w == LoggingText(text, st)
  {
    hide Unlines, StringLine, IntLine, FlagLine, HashLine, HexLine, OnLine, NormalFormat, Trim;
    w := text;
    w := WriteString(w, D.ChatLog, Trim(st.chatLogTypes));
    w := WriteString(w, D.ChatLogFile, Trim(st.chatLogFile));
    w := WriteFlag(w, D.ChatLogNoWarn, st.chatLogNoWarn);
  }

  method RenderAnnounce(st: PrefState, text: bytes) returns (w: bytes)
    ensures w == AnnounceText(text, st)
  {
    hide Unlines, StringLine, IntLine, FlagLine, HashLine, HexLine, OnLine, NormalFormat, Trim;
    w := text;
    w := WriteFormat(w, D.ChatLogFormat, st.chatLogTypes, st.chatLogFormat);
    w := WriteString(w, D.AutoAnnounce, st.autoAnnounce);
    w := WriteFlag(w, D.NoAutoRegister, st.noAutoRegister);
  }
}
