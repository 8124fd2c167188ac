/** The directive words of pserver.prefs (the switch of internal/pserverprefs/parse_form.go). */
module PrefsDirectives {
  import opened Bytes
  import opened WordMarks

  datatype Directive =
    | ServerName | WizardPassword | WizardPasswordHash | GodPassword | GodPasswordHash
    | HostPasswordHash | PicFolder | MaxSessionId | ServerOptions | SaveSessionKeys
    | Permissions | DeathPenalty | MaxOccupancy | RoomOccupancy | MinFloodEvents
    | PurgePropDays | AutoPurge | Sysop | Url | Website | Motd | MachineType | Blurb
    | HttpUrl | AutoAnnounce | YpMyExtAddr | YpMyExtPort | AutoRegister | YpDirectoryList
    | YpAddr | ChatLog | ChatLogFile | ChatLogNoWarn | ChatLogFormat | NoAutoRegister
    | Unrecognized

  /** The word of a directive; two of them have a second spelling. */
  function Word(d: Directive): seq<wordChar> {
    match d
    case ServerName => "SERVERNAME"
    case WizardPassword => "WIZARDPASSWORD"
    case WizardPasswordHash => "WIZARDPASSWORD_HASH"
    case GodPassword => "GODPASSWORD"
    case GodPasswordHash => "GODPASSWORD_HASH"
    case HostPasswordHash => "HOSTPASSWORD_HASH"
    case PicFolder => "PICFOLDER"
    case MaxSessionId => "MAXSESSIONID"
    case ServerOptions => "SERVEROPTIONS"
    case SaveSessionKeys => "SAVESESSIONKEYS"
    case Permissions => "PERMISSIONS"
    case DeathPenalty => "DEATHPENALTY"
    case MaxOccupancy => "MAXOCCUPANCY"
    case RoomOccupancy => "ROOMOCCUPANCY"
    case MinFloodEvents => "MINFLOODEVENTS"
    case PurgePropDays => "PURGEPROPDAYS"
    case AutoPurge => "AUTOPURGE"
    case Sysop => "SYSOP"
    case Url => "URL"
    case Website => "WEBSITE"
    case Motd => "MOTD"
    case MachineType => "MACHINETYPE"
    case Blurb => "BLURB"
    case HttpUrl => "HTTP_URL"
    case AutoAnnounce => "AUTOANNOUNCE"
    case YpMyExtAddr => "YPMYEXTADDR"
    case YpMyExtPort => "YPMYEXTPORT"
    case AutoRegister => "AUTOREGISTER"
    case YpDirectoryList => "YPDIRECTORYLIST"
    case YpAddr => "YPADDR"
    case ChatLog => "CHATLOG"
    case ChatLogFile => "CHATLOG_FILE"
    case ChatLogNoWarn => "CHATLOG_NOWARN"
    case ChatLogFormat => "CHATLOG_FORMAT"
    case NoAutoRegister => "NOAUTOREGISTER"
    case Unrecognized => ""
  }

  /** The switch over upper-cased words. */
  function Recognize(u: bytes): Directive {
    if u == Word(ServerName) then ServerName
    else if u == Word(WizardPassword) || u == "OPERATORPASSWORD" then WizardPassword
    else if u == Word(WizardPasswordHash) then WizardPasswordHash
    else if u == Word(GodPassword) || u == "OWNERPASSWORD" then GodPassword
    else if u == Word(GodPasswordHash) then GodPasswordHash
    else if u == Word(HostPasswordHash) then HostPasswordHash
    else if u == Word(PicFolder) then PicFolder
    else if u == Word(MaxSessionId) then MaxSessionId
    else if u == Word(ServerOptions) then ServerOptions
    else if u == Word(SaveSessionKeys) then SaveSessionKeys
    else if u == Word(Permissions) then Permissions
    else if u == Word(DeathPenalty) then DeathPenalty
    else if u == Word(MaxOccupancy) then MaxOccupancy
    else if u == Word(RoomOccupancy) then RoomOccupancy
    else if u == Word(MinFloodEvents) then MinFloodEvents
    else if u == Word(PurgePropDays) then PurgePropDays
    else if u == Word(AutoPurge) then AutoPurge
    else if u == Word(Sysop) then Sysop
    else if u == Word(Url) then Url
    else if u == Word(Website) then Website
    else if u == Word(Motd) then Motd
    else if u == Word(MachineType) then MachineType
    else if u == Word(Blurb) then Blurb
    else if u == Word(HttpUrl) then HttpUrl
    else if u == Word(AutoAnnounce) then AutoAnnounce
    else if u == Word(YpMyExtAddr) then YpMyExtAddr
    else if u == Word(YpMyExtPort) then YpMyExtPort
    else if u == Word(AutoRegister) then AutoRegister
    else if u == Word(YpDirectoryList) then YpDirectoryList
    else if u == Word(YpAddr) then YpAddr
    else if u == Word(ChatLog) then ChatLog
    else if u == Word(ChatLogFile) then ChatLogFile
    else if u == Word(ChatLogNoWarn) then ChatLogNoWarn
    else if u == Word(ChatLogFormat) then ChatLogFormat
    else if u == Word(NoAutoRegister) then NoAutoRegister
    else Unrecognized
  }

  // ---------- The words are pairwise different ----------

  function WordMark(d: Directive): Mark {
    match d
    case ServerName => Mark(10, 'S', 'R', 'E')
    case WizardPassword => Mark(14, 'W', 'A', 'D')
    case WizardPasswordHash => Mark(19, 'W', 'S', 'H')
    case GodPassword => Mark(11, 'G', 'S', 'D')
    case GodPasswordHash => Mark(16, 'G', 'O', 'H')
    case HostPasswordHash => Mark(17, 'H', 'W', 'H')
    case PicFolder => Mark(9, 'P', 'O', 'R')
    case MaxSessionId => Mark(12, 'M', 'S', 'D')
    case ServerOptions => Mark(13, 'S', 'O', 'S')
    case SaveSessionKeys => Mark(15, 'S', 'S', 'S')
    case Permissions => Mark(11, 'P', 'S', 'S')
    case DeathPenalty => Mark(12, 'D', 'E', 'Y')
    case MaxOccupancy => Mark(12, 'M', 'U', 'Y')
    case RoomOccupancy => Mark(13, 'R', 'C', 'Y')
    case MinFloodEvents => Mark(14, 'M', 'D', 'S')
    case PurgePropDays => Mark(13, 'P', 'R', 'S')
    case AutoPurge => Mark(9, 'A', 'P', 'E')
    case Sysop => Mark(5, 'S', 'S', 'P')
    case Url => Mark(3, 'U', 'R', 'L')
    case Website => Mark(7, 'W', 'S', 'E')
    case Motd => Mark(4, 'M', 'T', 'D')
    case MachineType => Mark(11, 'M', 'N', 'E')
    case Blurb => Mark(5, 'B', 'U', 'B')
    case HttpUrl => Mark(8, 'H', '_', 'L')
    case AutoAnnounce => Mark(12, 'A', 'N', 'E')
    case YpMyExtAddr => Mark(11, 'Y', 'X', 'R')
    case YpMyExtPort => Mark(11, 'Y', 'X', 'T')
    case AutoRegister => Mark(12, 'A', 'G', 'R')
    case YpDirectoryList => Mark(15, 'Y', 'T', 'T')
    case YpAddr => Mark(6, 'Y', 'D', 'R')
    case ChatLog => Mark(7, 'C', 'T', 'G')
    case ChatLogFile => Mark(12, 'C', 'G', 'E')
    case ChatLogNoWarn => Mark(14, 'C', '_', 'N')
    case ChatLogFormat => Mark(14, 'C', '_', 'T')
    case NoAutoRegister => Mark(14, 'N', 'E', 'R')
    case Unrecognized => Mark(0, ' ', ' ', ' ')
  }

  lemma WordHasMark(d: Directive)
    requires d != Unrecognized
    ensures Word(d) != [] && MarkOf(Word(d)) == WordMark(d)
  {
    hide Word, WordMark;
    var n := WordMark(d).len;
    if n < 9 {
      ShortWordHasMark(d);
    } else if n < 13 {
      MiddlingWordHasMark(d);
    } else {
      LongWordHasMark(d);
    }
  }

  lemma ShortWordHasMark(d: Directive)
    requires d != Unrecognized && WordMark(d).len < 9
    ensures Word(d) != [] && MarkOf(Word(d)) == WordMark(d)
  {
  }

  lemma MiddlingWordHasMark(d: Directive)
    requires 9 <= WordMark(d).len < 13
    ensures Word(d) != [] && MarkOf(Word(d)) == WordMark(d)
  {
  }

  lemma LongWordHasMark(d: Directive)
    requires 13 <= WordMark(d).len
    ensures Word(d) != [] && MarkOf(Word(d)) == WordMark(d)
  {
  }

  lemma WordsHaveMarks()
    ensures forall d :: d != Unrecognized ==> Word(d) != [] && MarkOf(Word(d)) == WordMark(d)
  {
    hide Word;
    forall d | d != Unrecognized ensures Word(d) != [] && MarkOf(Word(d)) == WordMark(d) {
      WordHasMark(d);
    }
  }

  lemma SecondSpellingsHaveMarks()
    ensures MarkOf("OPERATORPASSWORD") == Mark(16, 'O', 'P', 'D')
    ensures MarkOf("OWNERPASSWORD") == Mark(13, 'O', 'A', 'D')
  {
  }

  /** The only word with a given mark. */
  function FromMark(m: Mark): Directive {
    if m.len == 3 then Url
    else if m.len == 4 then Motd
    else if m.len == 5 then (if m.first == 'B' then Blurb
      else Sysop)
    else if m.len == 6 then YpAddr
    else if m.len == 7 then (if m.first == 'C' then ChatLog
      else Website)
    else if m.len == 8 then HttpUrl
    else if m.len == 9 then (if m.first == 'A' then AutoPurge
      else PicFolder)
    else if m.len == 10 then ServerName
    else if m.len == 11 then (if m.first == 'G' then GodPassword
      else if m.first == 'M' then MachineType
      else if m.first == 'P' then Permissions
      else (if m.last == 'R' then YpMyExtAddr
        else YpMyExtPort))
    else if m.len == 12 then (if m.first == 'A' then (if m.last == 'E' then AutoAnnounce
        else AutoRegister)
      else if m.first == 'C' then ChatLogFile
      else if m.first == 'D' then DeathPenalty
      else (if m.last == 'D' then MaxSessionId
        else MaxOccupancy))
    else if m.len == 13 then (if m.first == 'P' then PurgePropDays
      else if m.first == 'R' then RoomOccupancy
      else ServerOptions)
    else if m.len == 14 then (if m.first == 'C' then (if m.last == 'N' then ChatLogNoWarn
        else ChatLogFormat)
      else if m.first == 'M' then MinFloodEvents
      else if m.first == 'N' then NoAutoRegister
      else WizardPassword)
    else if m.len == 15 then (if m.first == 'S' then SaveSessionKeys
      else YpDirectoryList)
    else if m.len == 16 then GodPasswordHash
    else if m.len == 17 then HostPasswordHash
    else if m.len == 19 then WizardPasswordHash
    else Unrecognized
  }

  lemma MarkTellsWord(d: Directive)
    ensures FromMark(WordMark(d)) == d
  {
  }

  lemma MarksDiffer(d: Directive, v: Directive)
    requires WordMark(d) == WordMark(v)
    ensures d == v
  {
    hide FromMark, WordMark;
    MarkTellsWord(d);
    MarkTellsWord(v);
  }

  /** A recognized text is one of the words or second spellings. */
  lemma RecognizedIsWord(u: bytes)
    ensures var d := Recognize(u);
            d == Unrecognized || u == Word(d)
            || (d == WizardPassword && u == "OPERATORPASSWORD") || (d == GodPassword && u == "OWNERPASSWORD")
  {
    hide Word;
  }

  lemma WordIsRecognized(d: Directive)
    requires d != Unrecognized
    ensures Recognize(Word(d)) != Unrecognized
  {
    hide Word;
  }

  /** Every word is recognized as its own directive. */
  lemma WordIsItself(d: Directive)
    requires d != Unrecognized
    ensures Recognize(Word(d)) == d
  {
    hide Word, Recognize, WordMark;
    var e := Recognize(Word(d));
    RecognizedIsWord(Word(d));
    WordIsRecognized(d);
    WordHasMark(d);
    WordHasMark(e);
    SecondSpellingsHaveMarks();
    if WordMark(d) == WordMark(e) {
      MarksDiffer(d, e);
    } else {
      NoSecondSpelling(d);
    }
  }

  lemma NoSecondSpelling(d: Directive)
    ensures WordMark(d) != Mark(16, 'O', 'P', 'D') && WordMark(d) != Mark(13, 'O', 'A', 'D')
  {
  }
}
