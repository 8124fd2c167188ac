/** A form save reaches a fixed point: what a saved file parses to, and when saving it again
    unchanged writes the same bytes. */
module PrefsFormLaws {
  import opened Wrappers
  import opened Bytes
  import opened Numbers
  import opened PrefsState
  import opened PrefsDirectives
  import opened PrefsParser
  import opened PrefsRenderer
  import opened PrefsRoundTrip
  import opened PrefsMerge
  import opened PrefsMergeLaws
  import opened PrefsForm

  // ---------- Lines the parser keeps as they are ----------

  predicate KeepsRaw(raw: bytes) {
    !Blank(raw) && ReadLine(raw) == None
  }

  predicate AllRaw(ls: seq<bytes>) {
    forall i :: 0 <= i < |ls| ==> KeepsRaw(ls[i]) && NoNewline(ls[i])
  }

  lemma TokenNonEmpty(line: bytes)
    requires Trim(line) == line && line != []
    ensures SplitFirstToken(line).token != ""
  {
    hide Trim;
    TrimmedStart(line);
  }

  lemma TrimmedStart(line: bytes)
    requires Trim(line) == line && line != []
    ensures !IsSpace(line[0])
  {
  }

  /** Once the banner is past, a raw line is appended to the kept lines and nothing else happens. */
  lemma ScanRawLine(a: Scan, raw: bytes, ln: nat)
    requires a.bannerDone && KeepsRaw(raw)
    ensures ScanLine(a, raw, ln) == a.(unknown := a.unknown + [raw])
  {
    hide Trim, SplitFirstToken, Recognize, ToUpper;
    TrimTwice(raw);
    TokenNonEmpty(Trim(raw));
  }

  lemma {:induction false} ScanRawLines(a: Scan, ls: seq<bytes>, ln: nat)
    requires a.bannerDone && AllRaw(ls)
    ensures ScanLines(a, ls, ln) == a.(unknown := a.unknown + ls)
    decreases |ls|
  {
    hide KeepsRaw, ScanLine;
    if ls == [] {
      assert a.unknown + ls == a.unknown;
    } else {
      ScanRawLine(a, ls[0], ln);
      ScanRawLines(ScanLine(a, ls[0], ln), ls[1..], ln + 1);
      assert a.unknown + [ls[0]] + ls[1..] == a.unknown + ls;
    }
  }

  /** Every line a scan keeps is raw. */
  lemma ScanLineUnknown(a: Scan, raw: bytes, ln: nat)
    requires AllRaw(a.unknown) && NoNewline(raw)
    ensures AllRaw(ScanLine(a, raw, ln).unknown)
  {
    hide Trim, SplitFirstToken, Recognize, ToUpper, NoNewline;
  }

  lemma {:induction false} ScanLinesUnknown(a: Scan, ls: seq<bytes>, ln: nat)
    requires AllRaw(a.unknown) && NewlineFree(ls)
    ensures AllRaw(ScanLines(a, ls, ln).unknown)
    decreases |ls|
  {
    hide KeepsRaw, ScanLine;
    if ls != [] {
      ScanLineUnknown(a, ls[0], ln);
      ScanLinesUnknown(ScanLine(a, ls[0], ln), ls[1..], ln + 1);
    }
  }

  /** The lines a file's unknown tail is made of. */
  function UnknownLines(content: bytes): seq<bytes> {
    ScanLines(START, Lines(DropCr(content)), 0).unknown
  }

  lemma UnknownIsRaw(content: bytes)
    ensures AllRaw(UnknownLines(content))
    ensures ParseText(content).unknownTail == JoinLines(UnknownLines(content))
  {
    hide ScanLines, KeepsRaw, Lines, DropCr;
    ScanLinesUnknown(START, Lines(DropCr(content)), 0);
  }

  lemma StrippedRaw(ls: seq<bytes>)
    requires AllRaw(ls)
    ensures AllRaw(StripCrAll(ls))
  {
    hide ReadLine, Trim;
    forall i | 0 <= i < |ls| ensures KeepsRaw(StripCr(ls[i])) && NoNewline(StripCr(ls[i])) {
      StrippedReads(ls[i]);
      StripCrTrim(ls[i]);
      assert forall c :: c in StripCr(ls[i]) ==> c in ls[i];
    }
  }

  lemma KeptRaw(ls: seq<bytes>, p: bytes, q: bytes)
    requires AllRaw(ls)
    ensures AllRaw(Kept(ls, p, q))
  {
    hide Kept, KeepsRaw;
    KeptAreLines(ls, p, q);
  }

  lemma RawIsSolid(ls: seq<bytes>)
    requires AllRaw(ls)
    ensures NewlineFree(ls) && SolidEnd(ls)
  {
    hide ReadLine;
    BlankLine();
    if ls != [] {
      var last := ls[|ls| - 1];
      assert KeepsRaw(last) && last != [] && last[|last| - 1] in last;
    }
  }

  // ---------- The text of a save ----------

  /** The preserved lines follow the generated ones. */
  lemma WithUnknownIsUnlines(ls: seq<bytes>, raw: seq<bytes>)
    requires ls != [] && AllRaw(raw)
    ensures WithUnknown(Unlines(ls), JoinLines(raw)) == Unlines(ls + raw)
  {
    hide KeepsRaw, Unlines, JoinLines;
    RawIsSolid(raw);
    UnlinesEnd(ls);
    UnlinesAppend(ls, raw);
    if raw == [] {
      assert ls + raw == ls;
      assert JoinLines(raw) == "" by { JoinNothing(); }
    } else {
      JoinEnd(raw);
      JoinIsUnlines(raw);
      assert TrimNewlines(JoinLines(raw)) == JoinLines(raw);
      assert Unlines(ls) + JoinLines(raw) + "\n" == Unlines(ls) + (JoinLines(raw) + "\n");
    }
  }

  lemma JoinNothing()
    ensures JoinLines([]) == ""
  {
  }

  lemma {:induction false} UnlinesEnd(ls: seq<bytes>)
    requires ls != []
    ensures Unlines(ls) != [] && Unlines(ls)[|Unlines(ls)| - 1] == '\n'
  {
    if |ls| > 1 {
      UnlinesEnd(ls[1..]);
    }
  }

  predicate Staying(line: bytes) {
    !Blank(line) && !Dropped(line, YP_ADDR, YP_PORT)
  }

  lemma KnownStays(line: bytes)
    requires Known(line)
    ensures Staying(line)
  {
    hide Trim, CString, Dropped, SplitFirstToken, Recognize;
    if Dropped(line, YP_ADDR, YP_PORT) {
      DroppedYp(line);
    }
  }

  lemma CommentStays(line: bytes)
    requires Trim(line) == line && HasPrefix(line, ";")
    ensures Staying(line)
  {
    hide Trim;
    TellingLetters();
    assert ToUpper(line)[0] == ';';
  }

  /** The lines of a rendered file: scanned to the normal form, all kept by the announcement pass. */
  lemma RenderedFile(st: PrefState) returns (ls: seq<bytes>)
    ensures ls != [] && Rendered(st) == Unlines(ls) && NewlineFree(ls) && NoCrEnd(ls)
    ensures forall more :: ScanLines(START, ls + more, 0) == ScanLines(Scan(Normal(st), [], [], true), more, |ls|)
    ensures forall i :: 0 <= i < |ls| ==> Staying(ls[i])
  {
    hide Rendered, Normal, Unlines, Known, FoldState, ScanLines, Staying, Trim;
    var body := RenderedBody(st);
    BannerIsLines();
    ls := BANNER_LINES + body;
    forall more ensures ScanLines(START, ls + more, 0) == ScanLines(Scan(Normal(st), [], [], true), more, |ls|) {
      ScanBody(body, more);
    }
    BannerIsTrimmed();
    CommentStays(BANNER_LINES[0]);
    CommentStays(BANNER_LINES[1]);
    forall i | 0 <= i < |body| ensures Staying(body[i]) {
      KnownStays(body[i]);
    }
  }

  /** What the announcement pass makes of generated lines followed by raw ones. */
  lemma BodyOfSaved(ls: seq<bytes>, raw: seq<bytes>)
    requires ls != [] && NewlineFree(ls) && NoCrEnd(ls)
    requires forall i :: 0 <= i < |ls| ==> Staying(ls[i])
    requires AllRaw(raw)
    ensures Body(Unlines(ls + raw), YP_ADDR, YP_PORT) == ls + StripCrAll(Kept(raw, YP_ADDR, YP_PORT))
  {
    hide Unlines, Kept, DropBlankEnd, Dropped, Blank, ReadLine, Body, StripCr;
    var kept := Kept(raw, YP_ADDR, YP_PORT);
    RawIsSolid(raw);
    BodyOfUnlines(ls + raw, YP_ADDR, YP_PORT);
    KeptAppend(ls, raw, YP_ADDR, YP_PORT);
    KeptAll(ls, YP_ADDR, YP_PORT);
    StripAppend(ls, kept);
    StripCrFixed(ls);
    KeptRaw(raw, YP_ADDR, YP_PORT);
    StrippedRaw(kept);
    NoBlankEnd(ls + StripCrAll(kept));
  }

  /** The raw lines a save writes after the generated block. */
  function WrittenRaw(raw: seq<bytes>, e: Option<Entry>): seq<bytes> {
    match e
    case None => raw
    case Some(_) => StripCrAll(Kept(raw, YP_ADDR, YP_PORT))
  }

  function WrittenYp(e: Option<Entry>): seq<bytes> {
    match e
    case None => []
    case Some(x) => YpLines(x.host, x.port)
  }

  lemma AnnouncedLines(ls: seq<bytes>, raw: seq<bytes>, e: Option<Entry>)
    requires ls != [] && NewlineFree(ls) && NoCrEnd(ls)
    requires forall i :: 0 <= i < |ls| ==> Staying(ls[i])
    requires AllRaw(raw)
    ensures Announced(e, Unlines(ls + raw)) == Unlines(ls + WrittenRaw(raw, e) + WrittenYp(e))
    ensures AllRaw(WrittenRaw(raw, e))
  {
    hide Unlines, Kept, Staying, KeepsRaw, Body, StripCr, YpLines;
    if e == None {
      assert ls + raw + [] == ls + raw;
    } else {
      BodyOfSaved(ls, raw);
      KeptRaw(raw, YP_ADDR, YP_PORT);
      StrippedRaw(Kept(raw, YP_ADDR, YP_PORT));
    }
  }

  lemma ScanYpLines(a: Scan, e: Option<Entry>, ln: nat)
    requires a.bannerDone
    ensures ScanLines(a, WrittenYp(e), ln) == a
  {
    if e.Some? {
      var x := e.value;
      ScanYp(a, Trim(x.host), x.port, ln);
    }
  }

  lemma ScanYp(a: Scan, host: bytes, port: int, ln: nat)
    requires a.bannerDone
    ensures ScanLines(a, (if host != "" then [AddrText(host)] else []) + (if port > 0 then [PortText(port)] else []), ln) == a
  {
    hide ScanLine, AddrText, PortText, ScanLines;
    ScanNothing(a, ln);
    ScanNothing(a, ln + 1);
    var addr := if host != "" then [AddrText(host)] else [];
    var announced := if port > 0 then [PortText(port)] else [];
    ScanLinesAppend(a, addr, announced, ln);
    ScanAddr(a, host, ln);
    if port > 0 {
      ScanPort(a, port, ln);
      ScanPort(a, port, ln + 1);
    }
  }

  lemma ScanNothing(a: Scan, ln: nat)
    ensures ScanLines(a, [], ln) == a
  {
  }

  lemma ScanOne(a: Scan, raw: bytes, ln: nat)
    ensures ScanLines(a, [raw], ln) == ScanLine(a, raw, ln)
  {
    hide ScanLine;
    var ls: seq<bytes> := [raw];
    assert ls[1..] == [];
  }

  lemma ScanIgnored(a: Scan, raw: bytes, ln: nat)
    requires a.bannerDone && ReadLine(raw).Some? && IsAnnouncement(ReadLine(raw).value.d)
    ensures ScanLine(a, raw, ln) == a
  {
    hide Trim, SplitFirstToken, Recognize, ToUpper, Apply;
    var r := ReadLine(raw).value;
    ApplyIgnored(r.d, r.rest, a.st);
  }

  lemma ScanAddr(a: Scan, host: bytes, ln: nat)
    requires a.bannerDone
    ensures ScanLines(a, [AddrText(host)], ln) == a
  {
    hide ScanLine, AddrText, ScanLines, ReadLine;
    YpLineEffects(host, 0);
    ScanOne(a, AddrText(host), ln);
    ScanIgnored(a, AddrText(host), ln);
  }

  lemma ScanPort(a: Scan, port: nat, ln: nat)
    requires a.bannerDone
    ensures ScanLines(a, [PortText(port)], ln) == a
  {
    hide ScanLine, PortText, ScanLines, ReadLine;
    YpLineEffects("", port);
    ScanOne(a, PortText(port), ln);
    ScanIgnored(a, PortText(port), ln);
  }

  lemma WrittenLines(ls: seq<bytes>, raw: seq<bytes>, e: Option<Entry>)
    requires NewlineFree(ls) && NoCrEnd(ls) && AllRaw(raw)
    ensures Lines(DropCr(Unlines(ls + raw + WrittenYp(e)))) == ls + (StripCrAll(raw) + WrittenYp(e) + [""])
  {
    hide Unlines, KeepsRaw, WrittenYp, StripCr, Lines, DropCr;
    var yp := WrittenYp(e);
    WrittenYpAreLines(e);
    RawIsSolid(raw);
    ReadLinesOf(ls + raw + yp);
    StripAppend(ls + raw, yp);
    StripAppend(ls, raw);
    StripCrFixed(ls);
    StripCrFixed(yp);
    assert ls + StripCrAll(raw) + yp + [""] == ls + (StripCrAll(raw) + yp + [""]);
  }

  /** Reading back a written file: the normal form, the raw lines without trailing carriage
      returns, and no warning. */
  lemma ReadWritten(st: PrefState, ls: seq<bytes>, raw: seq<bytes>, e: Option<Entry>)
    requires NewlineFree(ls) && NoCrEnd(ls) && AllRaw(raw)
    requires forall more :: ScanLines(START, ls + more, 0) == ScanLines(Scan(Normal(st), [], [], true), more, |ls|)
    ensures ParseText(Unlines(ls + raw + WrittenYp(e))) == ParsedPrefs(Normal(st), JoinLines(StripCrAll(raw)), [])
    ensures UnknownLines(Unlines(ls + raw + WrittenYp(e))) == StripCrAll(raw)
  {
    hide Unlines, ScanLines, AllRaw, Normal, WrittenYp, StripCr, Lines, DropCr, NewlineFree, NoCrEnd, JoinLines;
    WrittenLines(ls, raw, e);
    StrippedRaw(raw);
    var a := Scan(Normal(st), [], [], true);
    ScanRest(a, StripCrAll(raw), e, |ls|);
  }

  lemma WrittenYpAreLines(e: Option<Entry>)
    ensures NewlineFree(WrittenYp(e)) && NoCrEnd(WrittenYp(e))
  {
    hide YpLines;
    if e.Some? {
      YpLinesAreLines(e.value.host, e.value.port);
    }
  }

  lemma ScanRest(a: Scan, raw: seq<bytes>, e: Option<Entry>, ln: nat)
    requires a.bannerDone && a.unknown == []
    requires AllRaw(raw)
    ensures ScanLines(a, raw + WrittenYp(e) + [""], ln) == a.(unknown := raw)
  {
    hide ScanLines, KeepsRaw, WrittenYp;
    var yp := WrittenYp(e);
    ScanLinesAppend(a, raw + yp, [""], ln);
    ScanLinesAppend(a, raw, yp, ln);
    ScanRawLines(a, raw, ln);
    assert [] + raw == raw;
    var b := a.(unknown := raw);
    ScanYpLines(b, e, ln + |raw|);
    ScanBlank(b, ln + |raw + yp|);
  }

  // ---------- Main results ----------

  /** A save of a form together with the tail the parser returned. The written file parses to the
      normal form of form and old state; every preserved line is still there, except those the
      announcement pass removes, and except for carriage returns at their end. */
  lemma SavedFile(existing: bytes, form: Form, e: Option<Entry>)
    returns (ls: seq<bytes>, raw: seq<bytes>)
    ensures var st := MergeForm(form, ParseText(existing).st);
            var out := Saved(existing, form, ParseText(existing).unknownTail, e);
            && raw == WrittenRaw(UnknownLines(existing), e) && AllRaw(raw)
            && Rendered(st) == Unlines(ls) && NewlineFree(ls)
            && out == Unlines(ls + raw + WrittenYp(e))
            && ParseText(out) == ParsedPrefs(Normal(st), JoinLines(StripCrAll(raw)), [])
            && UnknownLines(out) == StripCrAll(raw)
  {
    hide ParseText, MergeForm, Rendered, Normal, AllRaw, UnknownLines, WrittenRaw, WrittenYp, Announced;
    hide Unlines, ScanLines, Staying, NewlineFree, NoCrEnd, WithUnknown, JoinLines, StripCr;
    var st := MergeForm(form, ParseText(existing).st);
    ls := RenderedFile(st);
    var unknown := UnknownLines(existing);
    UnknownIsRaw(existing);
    WithUnknownIsUnlines(ls, unknown);
    AnnouncedLines(ls, unknown, e);
    raw := WrittenRaw(unknown, e);
    ReadWritten(st, ls, raw, e);
  }

  /** The form as a saved file shows it again: numbers clamped, text fields trimmed, the chat
      format reduced. */
  function NormalForm(f: Form): Form {
    f.(motd := Trim(f.motd),
       deathPenalty := ClampShort(f.deathPenalty),
       maxOccupancy := ClampShort(f.maxOccupancy),
       roomOccupancy := ClampShort(f.roomOccupancy),
       minFloodEvents := ClampShort(f.minFloodEvents),
       purgePropDays := ClampShort(f.purgePropDays),
       recycleLimit := ToInt32(f.recycleLimit),
       chatLogTypes := Trim(f.chatLogTypes),
       chatLogFile := Trim(f.chatLogFile),
       chatLogFormat := NormalFormat(f.chatLogTypes, f.chatLogFormat))
  }

  /** The directives the form does not show. */
  function Hidden(st: PrefState): PrefState {
    st.(serverName := "", sysop := "", url := "", website := "", motd := "", description := "",
        deathPenaltyMinutes := 0, maxOccupancy := 0, roomOccupancy := 0, minFloodEvents := 0,
        purgePropDays := 0, recycleLimit := 0,
        chatLogTypes := "", chatLogFile := "", chatLogFormat := "", chatLogNoWarn := false)
  }

  lemma ClampIsShort(v: int)
    ensures -0x8000 <= ClampShort(v) <= 0x7FFF && ToInt16(ClampShort(v)) == ClampShort(v)
  {
  }

  lemma MergedShows(f: Form, before: PrefState)
    ensures StateToForm(Normal(MergeForm(f, before))) == NormalForm(f)
  {
    ClampIsShort(f.deathPenalty);
    ClampIsShort(f.maxOccupancy);
    ClampIsShort(f.roomOccupancy);
    ClampIsShort(f.minFloodEvents);
    ClampIsShort(f.purgePropDays);
    hide Trim, NormalFormat, ToInt16, ToInt32, ClampShort;
  }

  lemma MergedHides(f: Form, before: PrefState)
    ensures Hidden(Normal(MergeForm(f, before))) == Hidden(Normal(before))
  {
    hide Trim, NormalFormat, ToInt16, ToInt32, ClampShort;
  }

  lemma ShownAgain(st: PrefState)
    ensures MergeForm(StateToForm(st), st) == st
  {
    ShortKept(st.deathPenaltyMinutes);
    ShortKept(st.maxOccupancy);
    ShortKept(st.roomOccupancy);
    ShortKept(st.minFloodEvents);
    ShortKept(st.purgePropDays);
    Int32Kept(st.recycleLimit);
    hide ToInt16, ToInt32, ClampShort;
  }

  lemma ShortKept(v: int16)
    ensures ToInt16(ClampShort(v)) == v
  {
  }

  /** Saving a form and opening the file again shows the normalized form; the hidden directives are
      those of the old file in normal form. */
  lemma SaveShowsForm(existing: bytes, form: Form, e: Option<Entry>)
    ensures var before := ParseText(existing);
            var after := ParseText(Saved(existing, form, before.unknownTail, e));
            && StateToForm(after.st) == NormalForm(form)
            && Hidden(after.st) == Hidden(Normal(before.st))
            && after.warnings == []
            && UnknownLines(Saved(existing, form, before.unknownTail, e))
               == StripCrAll(WrittenRaw(UnknownLines(existing), e))
  {
    hide ParseText, MergeForm, Normal, UnknownLines, WrittenRaw, Saved, NormalForm, Hidden, StateToForm, Unlines, AllRaw;
    var ls, raw := SavedFile(existing, form, e);
    MergedShows(form, ParseText(existing).st);
    MergedHides(form, ParseText(existing).st);
  }

  lemma UpdatedTwice(e: Option<Entry>, isAdmin: bool, host: bytes, port: int)
    ensures UpdatedEntry(UpdatedEntry(e, isAdmin, host, port), isAdmin, host, port) == UpdatedEntry(e, isAdmin, host, port)
  {
    hide Trim;
  }

  lemma SameGenerated(a: seq<bytes>, b: seq<bytes>)
    requires NewlineFree(a) && NewlineFree(b) && Unlines(a) == Unlines(b)
    ensures a == b
  {
    hide Unlines;
    UnlinesInjective(a, b);
  }

  /** Opening a saved file and saving it unchanged writes the same bytes exactly when no raw line of the first
      save ends in a carriage return. */
  lemma WrittenTwice(existing: bytes, form: Form, e: Option<Entry>)
    ensures var out := Saved(existing, form, ParseText(existing).unknownTail, e);
            var again := Saved(out, StateToForm(ParseText(out).st), ParseText(out).unknownTail, e);
            again == out <==> NoCrEnd(WrittenRaw(UnknownLines(existing), e))
  {
    hide ParseText, MergeForm, Rendered, Normal, UnknownLines, Saved, StateToForm, AllRaw;
    hide Unlines, WrittenRaw, WrittenYp, NewlineFree, NoCrEnd, StripCr, JoinLines;
    var ls, raw := SavedFile(existing, form, e);
    var out := Saved(existing, form, ParseText(existing).unknownTail, e);
    var st := MergeForm(form, ParseText(existing).st);
    var n := Normal(st);
    ShownAgain(n);
    NormalIdempotent(st);
    RenderedNormal(st);
    var ls2, raw2 := SavedFile(out, StateToForm(n), e);
    SameGenerated(ls, ls2);
    assert raw2 == WrittenRaw(StripCrAll(raw), e);
    RewrittenRaw(UnknownLines(existing), e);
    UnknownIsRaw(existing);
    WrittenYpAreLines(e);
    SameTail(ls, raw, raw2, WrittenYp(e));
    StripCrFixed(raw);
  }

  lemma StripTwice(ls: seq<bytes>)
    ensures StripCrAll(StripCrAll(ls)) == ls <==> NoCrEnd(ls)
  {
    if StripCrAll(StripCrAll(ls)) == ls {
      forall i | 0 <= i < |ls| ensures ls[i] == [] || ls[i][|ls[i]| - 1] != '\r' {
        assert StripCr(StripCr(ls[i])) == ls[i];
      }
    } else if NoCrEnd(ls) {
      StripCrFixed(ls);
    }
  }

  lemma KeptTwice(ls: seq<bytes>, p: bytes, q: bytes)
    ensures Kept(Kept(ls, p, q), p, q) == Kept(ls, p, q)
  {
    hide Kept, Dropped;
    KeptAreLines(ls, p, q);
    KeptAll(Kept(ls, p, q), p, q);
  }

  lemma RewrittenRaw(unknown: seq<bytes>, e: Option<Entry>)
    ensures var raw := WrittenRaw(unknown, e);
            var again := WrittenRaw(StripCrAll(raw), e);
            |again| == |raw| && (again == raw <==> NoCrEnd(raw))
  {
    hide Kept, StripCr, NoCrEnd;
    var raw := WrittenRaw(unknown, e);
    if e == None {
      StripCrFixed(raw);
    } else {
      var kept := Kept(unknown, YP_ADDR, YP_PORT);
      KeptStripped(kept, YP_ADDR, YP_PORT);
      KeptTwice(unknown, YP_ADDR, YP_PORT);
      KeptStripped(raw, YP_ADDR, YP_PORT);
      StripTwice(raw);
    }
  }

  lemma SameTail(ls: seq<bytes>, a: seq<bytes>, b: seq<bytes>, end: seq<bytes>)
    requires NewlineFree(ls) && AllRaw(a) && AllRaw(b) && NewlineFree(end) && |a| == |b|
    ensures Unlines(ls + a + end) == Unlines(ls + b + end) <==> a == b
  {
    hide Unlines, KeepsRaw;
    RawIsSolid(a);
    RawIsSolid(b);
    if Unlines(ls + a + end) == Unlines(ls + b + end) {
      UnlinesInjective(ls + a + end, ls + b + end);
      assert (ls + a + end)[|ls|..|ls + a|] == a;
      assert (ls + b + end)[|ls|..|ls + b|] == b;
    }
  }
}
