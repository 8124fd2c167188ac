/** The record of pserver.prefs directives (internal/pserverprefs/formstate.go). */
module PrefsState {
  import opened Bytes
  import opened Numbers

  datatype PrefState = PrefState(
    serverName: bytes,
    wizardPlain: bytes,
    wizardHash: bytes,
    godPlain: bytes,
    godHash: bytes,
    hostPasswordHash: bytes,
    permissions: uint32,
    deathPenaltyMinutes: int16,
    maxOccupancy: int16,
    roomOccupancy: int16,
    minFloodEvents: int16,
    purgePropDays: int16,
    autoPurge: bool,
    recycleLimit: int32,
    serverOptions: uint32,
    saveSessionKeys: bool,
    picFolder: bytes,
    sysop: bytes,
    url: bytes,
    website: bytes,
    motd: bytes,
    description: bytes,
    httpServer: bytes,
    autoAnnounce: bytes,
    chatLogTypes: bytes,
    chatLogFile: bytes,
    chatLogFormat: bytes,
    chatLogNoWarn: bool,
    noAutoRegister: bool
  )

  /** Go's zero value of the record. */
  const EMPTY: PrefState := PrefState(
    "", "", "", "", "", "", 0, 0, 0, 0, 0, 0, false, 0, 0, false,
    "", "", "", "", "", "", "", "", "", "", "", false, false)

  /** The chat-log format a rendered file can carry. */
  function NormalFormat(types: bytes, format: bytes): bytes {
    if Trim(types) == "" || Trim(format) == "" then ""
    else if EqualFold(Trim(format), "csv") then "csv"
    else "json"
  }

  /** What a rendered file can say about a state: a hash is dropped in favour of a plain password,
      hashes, MOTD and chat-log fields are trimmed, and the chat format is reduced. */
  function Normal(st: PrefState): PrefState {
    st.(wizardHash := if st.wizardPlain != "" then "" else Trim(st.wizardHash),
        godHash := if st.godPlain != "" then "" else Trim(st.godHash),
        hostPasswordHash := Trim(st.hostPasswordHash),
        motd := Trim(st.motd),
        chatLogTypes := Trim(st.chatLogTypes),
        chatLogFile := Trim(st.chatLogFile),
        chatLogFormat := NormalFormat(st.chatLogTypes, st.chatLogFormat))
  }

  lemma FormatWords()
    ensures Trim("csv") == "csv" && Trim("json") == "json" && Trim("") == ""
    ensures EqualFold("csv", "csv") && !EqualFold("json", "csv")
  {
    hide Trim;
    TrimFixed("csv");
    TrimFixed("json");
    TrimFixed("");
    assert |ToLower("json")| == 4 && |ToLower("csv")| == 3;
  }

  lemma NormalFormatTrimmed(types: bytes, format: bytes)
    ensures Trim(NormalFormat(types, format)) == NormalFormat(types, format)
  {
    hide Trim, EqualFold;
    FormatWords();
  }

  lemma NormalFormatIdempotent(types: bytes, format: bytes)
    ensures NormalFormat(Trim(types), NormalFormat(types, format)) == NormalFormat(types, format)
  {
    hide Trim, EqualFold;
    FormatWords();
    TrimTwice(types);
  }

  lemma NormalIdempotent(st: PrefState)
    ensures Normal(Normal(st)) == Normal(st)
  {
    TrimTwice(st.wizardHash);
    TrimTwice(st.godHash);
    TrimTwice(st.hostPasswordHash);
    TrimTwice(st.motd);
    TrimTwice(st.chatLogTypes);
    TrimTwice(st.chatLogFile);
    TrimFixed("");
    NormalFormatIdempotent(st.chatLogTypes, st.chatLogFormat);
    hide Trim, NormalFormat;
    var n := Normal(st);
    var m := Normal(n);
    assert m.wizardHash == n.wizardHash;
    assert m.godHash == n.godHash;
    assert m.hostPasswordHash == n.hostPasswordHash;
    assert m.motd == n.motd;
    assert m.chatLogTypes == n.chatLogTypes;
    assert m.chatLogFile == n.chatLogFile;
    assert m.chatLogFormat == n.chatLogFormat;
  }
}
