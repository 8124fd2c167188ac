/** The structured editor's form and the save pipeline of pserver.prefs
    (internal/pserverprefs/form_dto.go and the form mode of internal/api/handlers.go). */
module PrefsForm {
  import opened Wrappers
  import opened Bytes
  import opened Numbers
  import opened PrefsState
  import opened PrefsParser
  import opened PrefsRenderer
  import opened PrefsMerge

  datatype Form = Form(
    serverName: bytes,
    sysop: bytes,
    url: bytes,
    website: bytes,
    motd: bytes,
    blurb: bytes,
    deathPenalty: int64,
    maxOccupancy: int64,
    roomOccupancy: int64,
    minFloodEvents: int64,
    purgePropDays: int64,
    recycleLimit: int64,
    chatLogTypes: bytes,
    chatLogFile: bytes,
    chatLogFormat: bytes,
    chatLogNoWarn: bool
  )

  function StateToForm(st: PrefState): Form {
    Form(st.serverName, st.sysop, st.url, st.website, st.motd, st.description,
         st.deathPenaltyMinutes, st.maxOccupancy, st.roomOccupancy, st.minFloodEvents,
         st.purgePropDays, st.recycleLimit,
         st.chatLogTypes, st.chatLogFile, st.chatLogFormat, st.chatLogNoWarn)
  }

  function ClampShort(v: int): int {
    if v > 32767 then 32767 else if v < -32768 then -32768 else v
  }

  /** The form on top of what the previous file said. */
  function MergeForm(d: Form, old': PrefState): PrefState {
    old'.(serverName := d.serverName,
          sysop := d.sysop,
          url := d.url,
          website := d.website,
          motd := d.motd,
          description := d.blurb,
          deathPenaltyMinutes := ToInt16(ClampShort(d.deathPenalty)),
          maxOccupancy := ToInt16(ClampShort(d.maxOccupancy)),
          roomOccupancy := ToInt16(ClampShort(d.roomOccupancy)),
          minFloodEvents := ToInt16(ClampShort(d.minFloodEvents)),
          purgePropDays := ToInt16(ClampShort(d.purgePropDays)),
          recycleLimit := ToInt32(d.recycleLimit),
          chatLogTypes := d.chatLogTypes,
          chatLogFile := d.chatLogFile,
          chatLogFormat := d.chatLogFormat,
          chatLogNoWarn := d.chatLogNoWarn)
  }

  /** strings.TrimRight(s, "\n"). */
  function TrimNewlines(s: bytes): bytes {
    if s != [] && s[|s| - 1] == '\n' then TrimNewlines(s[..|s| - 1]) else s
  }

  /** The generated block followed by the preserved lines. */
  function WithUnknown(base: bytes, unknownTail: bytes): bytes {
    var tail := TrimNewlines(unknownTail);
    if tail == "" then base
    else (if base != "" && base[|base| - 1] != '\n' then base + "\n" else base) + tail + "\n"
  }

  // ---------- Saving ----------

  /** The registry's announcement settings of a palace. */
  datatype Entry = Entry(host: bytes, port: int, tcpPort: int)

  function ResolvePort(host: bytes, port: int, tcpPort: int): int {
    if Trim(host) == "" then 0 else if port > 0 then port else tcpPort
  }

  /** Only administrators change the registry, and only for a registered palace. */
  function UpdatedEntry(e: Option<Entry>, isAdmin: bool, host: bytes, port: int): Option<Entry> {
    match e
    case None => None
    case Some(x) =>
      if !isAdmin then e
      else Some(x.(host := Trim(host), port := if Trim(host) == "" then 0 else ResolvePort(host, port, x.tcpPort)))
  }

  function Announced(e: Option<Entry>, content: bytes): bytes {
    match e
    case None => content
    case Some(x) => MergedYp(content, x.host, x.port)
  }

  /** The text the form mode of a save writes, given the registry entry after its update. */
  function Saved(existing: bytes, form: Form, unknownTail: bytes, e: Option<Entry>): bytes {
    Announced(e, WithUnknown(Rendered(MergeForm(form, ParseText(existing).st)), unknownTail))
  }

  /** What a save writes, and the palace's registry entry afterwards. */
  datatype Saving = Saving(text: bytes, entry: Option<Entry>)

  function SaveResult(existing: bytes, form: Form, unknownTail: bytes, entry: Option<Entry>,
                      isAdmin: bool, host: bytes, port: int): Saving
  {
    var updated := UpdatedEntry(entry, isAdmin, host, port);
    Saving(Saved(existing, form, unknownTail, updated), updated)
  }

  method SaveForm(existing: bytes, form: Form, unknownTail: bytes, entry: Option<Entry>,
                  isAdmin: bool, host: bytes, port: int)
    returns (merged: bytes, updated: Option<Entry>)
    ensures Saving(merged, updated) == SaveResult(existing, form, unknownTail, entry, isAdmin, host, port)
  {
    hide ParseText, MergeForm, Rendered, MergedYp, Trim;
    var oldState, _, _ := ParsePrefState(existing);
    var base := RenderPrefState(MergeForm(form, oldState));
    var outContent := WithUnknown(base, unknownTail);
    updated := entry;
    if isAdmin {
      match updated {
        case None =>
        case Some(pal) =>
          pal := pal.(host := Trim(host), port := ResolvePort(host, port, pal.tcpPort));
          if pal.host == "" {
            pal := pal.(port := 0);
          }
          updated := Some(pal);
      }
    }
    match updated {
      case None => merged := outContent;
      case Some(p) => merged := MergeYPAnnounce(outContent, p.host, p.port);
    }
  }
}
