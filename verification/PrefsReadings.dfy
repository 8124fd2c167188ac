/** What the parser makes of one line at the end of any text, told by how its argument is put together, for the
    arguments the printer never writes as well as for those it does. */
module PrefsReadings {
  import opened Wrappers
  import opened Bytes
  import opened Numbers
  import opened NumberLaws
  import opened PalaceString
  import opened PalaceEscapes
  import opened PrefsState
  import opened PrefsDirectives
  import opened PrefsParser
  import opened PrefsRoundTrip
  import opened PrefsMergeLaws

  // ---------- One line at the end of a text ----------

  /** A line: a word in any case, a blank and an argument, with white space before. */
  function LineOf(lead: bytes, word: bytes, sep: byte, arg: bytes): bytes {
    lead + word + [sep] + arg
  }

  predicate IsLine(d: Directive, lead: bytes, word: bytes, sep: byte, arg: bytes) {
    && d != Unrecognized && ToUpper(word) == Word(d) && (sep == ' ' || sep == '\t')
    && AllSpace(lead) && NoNewline(lead) && NoNewline(arg)
  }

  lemma WordBytes(d: Directive, word: bytes)
    requires d != Unrecognized && ToUpper(word) == Word(d)
    ensures word != [] && word[0] != ';' && Trimmed(word) && NoNewline(word) && IndexBlank(word) == |word|
    ensures Recognize(ToUpper(word)) == d && ToUpper(ToUpper(word)) == ToUpper(word)
  {
    hide Recognize, Word, IndexBlank;
    WordRecognized(d);
    WordIsItself(d);
    forall i | 0 <= i < |word| ensures !IsSpace(word[i]) && word[i] != ';' && word[i] != '\n' {
      assert Upper(word[i]) == Word(d)[i];
    }
    assert |word| == |Word(d)|;
    NoBlank(word);
    assert ToUpper(ToUpper(word)) == ToUpper(word);
  }

  lemma IndexBlankAt(word: bytes, sep: byte, rest: bytes)
    requires IndexBlank(word) == |word| && (sep == ' ' || sep == '\t')
    ensures IndexBlank(word + [sep] + rest) == |word|
  {
    var s := word + [sep] + rest;
    if word != [] {
      assert s[1..] == word[1..] + [sep] + rest;
      IndexBlankAt(word[1..], sep, rest);
    }
  }

  /** Any spelling of a directive reads as it, with its trimmed argument. */
  lemma ReadAnySpelling(d: Directive, lead: bytes, word: bytes, sep: byte, arg: bytes)
    requires IsLine(d, lead, word, sep, arg)
    ensures ReadLine(LineOf(lead, word, sep, arg)) == Some(Reading(d, Trim(arg)))
    ensures NoNewline(LineOf(lead, word, sep, arg))
  {
    hide Recognize, Trim, SplitFirstToken, IndexBlank, ToUpper, Word;
    WordBytes(d, word);
    var left, right := TrimParts(arg);
    var core := Trim(arg);
    var line := LineOf(lead, word, sep, arg);
    if core == [] {
      assert line == lead + word + ([sep] + left + right);
      TrimPadded(lead, word, [sep] + left + right);
      WordAlone(d, word);
    } else {
      var gap := [sep] + left;
      var body := word + gap + core;
      assert line == lead + body + right;
      assert body[0] == word[0] && body[|body| - 1] == core[|core| - 1];
      TrimPadded(lead, body, right);
      BodySplit(word, sep, left, core);
    }
  }

  lemma WordAlone(d: Directive, word: bytes)
    requires word != [] && Trimmed(word) && IndexBlank(word) == |word|
    ensures SplitFirstToken(word) == Split(ToUpper(word), "")
  {
    hide IndexBlank, Trim, ToUpper;
    TrimFixed(word);
  }

  lemma BodySplit(word: bytes, sep: byte, left: bytes, core: bytes)
    requires word != [] && Trimmed(word) && IndexBlank(word) == |word| && (sep == ' ' || sep == '\t')
    requires AllSpace(left) && core != [] && Trimmed(core)
    ensures SplitFirstToken(word + ([sep] + left) + core) == Split(word, core)
  {
    hide IndexBlank, Trim;
    var body := word + ([sep] + left) + core;
    assert body == word + [sep] + (left + core);
    IndexBlankAt(word, sep, left + core);
    assert body[0] == word[0] && body[|body| - 1] == core[|core| - 1];
    TrimFixed(body);
    assert body[..|word|] == word && body[|word|..] == ([sep] + left) + core + [];
    TrimPadded([sep] + left, core, []);
  }

  /** The state after a text with one more line. */
  lemma StateAfterLine(before: seq<bytes>, line: bytes, r: Reading)
    requires NewlineFree(before) && NoNewline(line) && ReadLine(line) == Some(r)
    ensures ParseText(Unlines(before + [line])).st == Apply(r.d, r.rest, ParseText(Unlines(before)).st)
  {
    hide ParseText, Apply, ReadLine, Unlines;
    StateOfUnlines(before);
    StateOfUnlines(before + [line]);
    FoldStateAppend(before, [line], EMPTY);
    FoldOne(line, FoldState(before, EMPTY));
  }

  // ---------- Switches ----------

  predicate NoSpaces(w: bytes) {
    w != "" && forall i :: 0 <= i < |w| ==> !IsSpace(w[i])
  }

  lemma {:induction false} SpaceAfterWord(w: bytes, more: bytes)
    requires (forall i :: 0 <= i < |w| ==> !IsSpace(w[i])) && (more != [] ==> IsSpace(more[0]))
    ensures IndexSpace(w + more) == |w|
  {
    if w == [] {
      assert w + more == more;
    } else {
      assert (w + more)[1..] == w[1..] + more;
      SpaceAfterWord(w[1..], more);
    }
  }

  lemma FirstWord(pad: bytes, w: bytes, more: bytes)
    requires AllSpace(pad) && NoSpaces(w) && (more != [] ==> IsSpace(more[0]))
    ensures FirstToken(Trim(pad + w + more)) == w
  {
    hide IndexSpace, Trim;
    assert pad + w + more == pad + (w + more);
    var kept := TrimAround(pad, w, more);
    SpaceAfterWord(w, kept);
    TrimmedKeepsLeft(w + kept);
    assert (w + kept)[..|w|] == w;
  }

  lemma TrimmedKeepsLeft(t: bytes)
    requires t != [] && !IsSpace(t[0])
    ensures TrimLeft(t) == t
  {
  }

  /** AUTOPURGE is on exactly when the first word of its argument is on, 1, true or yes, in any case. */
  lemma AutoPurgeRead(before: seq<bytes>, lead: bytes, word: bytes, sep: byte, pad: bytes, w: bytes, more: bytes)
    requires NewlineFree(before) && IsLine(AutoPurge, lead, word, sep, pad + w + more)
    requires AllSpace(pad) && NoSpaces(w) && (more != [] ==> IsSpace(more[0]))
    ensures ParseText(Unlines(before + [LineOf(lead, word, sep, pad + w + more)])).st.autoPurge <==>
            EqualFold(w, "on") || w == "1" || EqualFold(w, "true") || EqualFold(w, "yes")
  {
    hide ParseText, ReadLine, Unlines, Trim, FirstToken, LineOf, IsLine;
    var arg := pad + w + more;
    ReadAnySpelling(AutoPurge, lead, word, sep, arg);
    StateAfterLine(before, LineOf(lead, word, sep, arg), Reading(AutoPurge, Trim(arg)));
    FirstWord(pad, w, more);
    IsOnWord(w, Trim(arg));
  }

  lemma IsOnWord(w: bytes, rest: bytes)
    requires FirstToken(rest) == w && NoSpaces(w)
    ensures IsOn(rest) <==> EqualFold(w, "on") || w == "1" || EqualFold(w, "true") || EqualFold(w, "yes")
  {
    hide FirstToken;
    TrimFixed(w);
    hide Trim;
    assert ToLower("on") == "on" && ToLower("true") == "true" && ToLower("yes") == "yes";
    if ToLower(w) == "1" {
      assert Lower(w[0]) == '1' && |w| == 1;
    }
    if w == "1" {
      assert ToLower(w) == "1";
    }
  }

  /** AUTOPURGE OFF switches it off. */
  lemma AutoPurgeOff(before: seq<bytes>)
    requires NewlineFree(before)
    ensures !ParseText(Unlines(before + ["AUTOPURGE OFF"])).st.autoPurge
  {
    hide ParseText, Unlines;
    WordIs();
    assert LineOf("", "AUTOPURGE", ' ', "" + "OFF" + "") == "AUTOPURGE OFF";
    AutoPurgeRead(before, "", "AUTOPURGE", ' ', "", "OFF", "");
    assert ToLower("OFF")[1] == 'f' && |ToLower("OFF")| == 3;
    assert |ToLower("on")| == 2 && |ToLower("true")| == 4 && ToLower("yes")[1] == 'e';
  }

  lemma WordIs()
    ensures ToUpper("AUTOPURGE") == Word(AutoPurge)
  {
    assert ToUpper("AUTOPURGE") == "AUTOPURGE";
  }

  // ---------- Numbers ----------

  /** The number a directive sets. */
  function NumberField(d: Directive, st: PrefState): Option<int> {
    match d
    case DeathPenalty => Some(st.deathPenaltyMinutes)
    case MaxOccupancy => Some(st.maxOccupancy)
    case RoomOccupancy => Some(st.roomOccupancy)
    case MinFloodEvents => Some(st.minFloodEvents)
    case PurgePropDays => Some(st.purgePropDays)
    case MaxSessionId => Some(st.recycleLimit)
    case Permissions => Some(st.permissions)
    case ServerOptions => Some(st.serverOptions)
    case _ => None
  }

  /** How many values its field tells apart. */
  function Width(d: Directive): nat {
    if d.MaxSessionId? || d.Permissions? || d.ServerOptions? then 0x1_0000_0000 else 0x1_0000
  }

  /** The field holds the low bits of a number; its type says which of the values with these bits it is. */
  ghost predicate HoldsLowBits(field: Option<int>, v: int, width: nat) {
    field.Some? && exists q: int :: v == field.value + q * width
  }

  lemma NumberLine(before: seq<bytes>, d: Directive, lead: bytes, word: bytes, sep: byte, arg: bytes)
    requires NewlineFree(before) && IsLine(d, lead, word, sep, arg) && NumberField(d, EMPTY).Some?
    ensures HoldsLowBits(NumberField(d, ParseText(Unlines(before + [LineOf(lead, word, sep, arg)])).st), ParseInt(arg), Width(d))
  {
    hide ParseText, ReadLine, Unlines, Trim, LineOf, IsLine, ParseInt;
    ReadAnySpelling(d, lead, word, sep, arg);
    var line := LineOf(lead, word, sep, arg);
    StateAfterLine(before, line, Reading(d, Trim(arg)));
    ParseIntTrims(arg);
    NumberApplied(d, Trim(arg), ParseText(Unlines(before)).st);
  }

  lemma ParseIntTrims(arg: bytes)
    ensures ParseInt(Trim(arg)) == ParseInt(arg)
  {
    hide Trim, Atoi, UintOrClamp;
    TrimTwice(arg);
  }

  lemma NumberApplied(d: Directive, rest: bytes, st: PrefState)
    requires NumberField(d, EMPTY).Some?
    ensures HoldsLowBits(NumberField(d, Apply(d, rest, st)), ParseInt(rest), Width(d))
  {
    hide ParseInt, ToInt16, ToInt32, ToUint32, StringOr, TrimmedStringOr, IsOn;
    NarrowingKeepsLowBits(ParseInt(rest));
  }

  function Nearest64(v: int): int {
    if v > MAX_INT64 then MAX_INT64 else if v < MIN_INT64 then MIN_INT64 else v
  }

  /** A decimal argument, with or without a sign: the field holds its low bits. */
  lemma DecimalRead(before: seq<bytes>, d: Directive, lead: bytes, word: bytes, sep: byte, pad: bytes, sign: bytes, ds: bytes, end: bytes)
    requires NewlineFree(before) && IsLine(d, lead, word, sep, pad + (sign + ds) + end) && NumberField(d, EMPTY).Some?
    requires AllSpace(pad) && AllSpace(end) && IsSign(sign) && ds != "" && AreDigits(ds, 10)
    ensures HoldsLowBits(NumberField(d, ParseText(Unlines(before + [LineOf(lead, word, sep, pad + (sign + ds) + end)])).st),
                         Nearest64(Signed(sign, Worth(ds, 10))), Width(d))
  {
    hide ParseText, Unlines, LineOf, IsLine, HoldsLowBits, Worth, Trim, Atoi, UintOrClamp, NumberField;
    var s := sign + ds;
    assert forall i :: 0 <= i < |ds| ==> IsDigitIn(ds[i], 10);
    assert s[0] == (if sign == "" then ds[0] else sign[0]) && s[|s| - 1] == ds[|ds| - 1];
    assert |s| > 1 ==> s[1] == if sign == "" then ds[1] else ds[0];
    TrimPadded(pad, s, end);
    AtoiReads(sign, ds);
    NumberLine(before, d, lead, word, sep, pad + s + end);
  }

  /** A hexadecimal argument: the field holds its low bits; a number of more than 32 bits counts as all ones. */
  lemma HexadecimalRead(before: seq<bytes>, d: Directive, lead: bytes, word: bytes, sep: byte, pad: bytes, x: byte, ds: bytes, end: bytes)
    requires NewlineFree(before) && IsLine(d, lead, word, sep, pad + (['0', x] + ds) + end) && NumberField(d, EMPTY).Some?
    requires AllSpace(pad) && AllSpace(end) && (x == 'x' || x == 'X') && ds != "" && AreDigits(ds, 16)
    ensures HoldsLowBits(NumberField(d, ParseText(Unlines(before + [LineOf(lead, word, sep, pad + (['0', x] + ds) + end)])).st),
                         if Worth(ds, 16) <= 0xFFFF_FFFF then Worth(ds, 16) else 0xFFFF_FFFF, Width(d))
  {
    hide ParseText, Unlines, LineOf, IsLine, HoldsLowBits, Worth, Trim, Atoi, UintOrClamp, NumberField;
    var s := ['0', x] + ds;
    assert IsDigitIn(ds[|ds| - 1], 16);
    assert s[0] == '0' && s[1] == x && s[|s| - 1] == ds[|ds| - 1] && s[2..] == ds;
    TrimPadded(pad, s, end);
    HexReads(ds, 0xFFFF_FFFF);
    NumberLine(before, d, lead, word, sep, pad + s + end);
  }

  /** An argument with a byte that is no digit counts as 0, unless it is hexadecimal or out of range before. */
  lemma NoNumberRead(before: seq<bytes>, d: Directive, lead: bytes, word: bytes, sep: byte, sign: bytes, ds: bytes, c: byte, rest: bytes)
    requires NewlineFree(before) && IsLine(d, lead, word, sep, sign + (ds + [c] + rest)) && NumberField(d, EMPTY).Some?
    requires IsSign(sign) && AreDigits(ds, 10) && !IsDigitIn(c, 10) && Worth(ds, 10) <= MAX_UINT64
    requires c != 'x' && c != 'X' && (sign == "" && ds == "" ==> c != '-' && c != '+') && Trimmed(sign + (ds + [c] + rest))
    ensures HoldsLowBits(NumberField(d, ParseText(Unlines(before + [LineOf(lead, word, sep, sign + (ds + [c] + rest))])).st), 0, Width(d))
  {
    hide ParseText, Unlines, LineOf, IsLine, HoldsLowBits, Worth, Trim, Atoi, UintOrClamp, NumberField;
    var s := sign + (ds + [c] + rest);
    TrimFixed(s);
    NotHexadecimal(sign, ds, c, rest);
    AtoiRefuses(sign, ds, c, rest);
    NumberLine(before, d, lead, word, sep, s);
  }

  lemma NotHexadecimal(sign: bytes, ds: bytes, c: byte, rest: bytes)
    requires IsSign(sign) && AreDigits(ds, 10) && !IsDigitIn(c, 10) && c != 'x' && c != 'X'
    ensures var s := sign + (ds + [c] + rest); s != [] && !(|s| > 2 && s[0] == '0' && (s[1] == 'x' || s[1] == 'X'))
  {
    var s := sign + (ds + [c] + rest);
    assert forall i :: 0 <= i < |ds| ==> IsDigitIn(ds[i], 10);
    assert sign == "" && |ds| == 1 ==> s[1] == c;
    assert sign == "" && |ds| > 1 ==> s[1] == ds[1];
    assert !IsDigitIn('x', 10) && !IsDigitIn('X', 10);
    assert sign == "" && ds == "" ==> s[0] == c;
    assert sign != "" ==> s[0] == sign[0];
  }

  // ---------- Strings ----------

  /** The string a directive sets. */
  function StringField(d: Directive, st: PrefState): Option<bytes> {
    match d
    case ServerName => Some(st.serverName)
    case WizardPassword => Some(st.wizardPlain)
    case WizardPasswordHash => Some(st.wizardHash)
    case GodPassword => Some(st.godPlain)
    case GodPasswordHash => Some(st.godHash)
    case HostPasswordHash => Some(st.hostPasswordHash)
    case PicFolder => Some(st.picFolder)
    case Sysop => Some(st.sysop)
    case Url => Some(st.url)
    case Website => Some(st.website)
    case Motd => Some(st.motd)
    case Blurb => Some(st.description)
    case HttpUrl => Some(st.httpServer)
    case AutoAnnounce => Some(st.autoAnnounce)
    case ChatLog => Some(st.chatLogTypes)
    case ChatLogFile => Some(st.chatLogFile)
    case ChatLogFormat => Some(st.chatLogFormat)
    case _ => None
  }

  /** Hashes and chat-log strings lose white space around them. */
  predicate IsTrimmedField(d: Directive) {
    d.WizardPasswordHash? || d.GodPasswordHash? || d.HostPasswordHash? || d.ChatLog? || d.ChatLogFile? || d.ChatLogFormat?
  }

  lemma {:induction false} PiecesOkBefore(ps: seq<Piece>, a: bytes, b: bytes)
    requires PiecesOk(ps, a) && a != [] && b != [] && a[0] == b[0]
    ensures PiecesOk(ps, b)
  {
    if ps != [] {
      PiecesOkBefore(ps[1..], a, b);
    }
  }

  lemma {:induction false} TrimRightAround(q: bytes, rest: bytes) returns (kept: bytes)
    requires q != [] && !IsSpace(q[|q| - 1])
    ensures TrimRight(q + rest) == q + kept && kept <= rest
    decreases |rest|
  {
    var s := q + rest;
    if rest == [] {
      assert s == q;
      kept := [];
    } else if IsSpace(rest[|rest| - 1]) {
      assert s[..|s| - 1] == q + rest[..|rest| - 1];
      kept := TrimRightAround(q, rest[..|rest| - 1]);
    } else {
      kept := rest;
    }
  }

  /** Trimming stops at a byte that is no white space. */
  lemma TrimAround(pad: bytes, q: bytes, rest: bytes) returns (kept: bytes)
    requires AllSpace(pad) && q != [] && !IsSpace(q[0]) && !IsSpace(q[|q| - 1])
    ensures Trim(pad + (q + rest)) == q + kept && kept <= rest
  {
    hide TrimLeft, TrimRight;
    assert (q + rest)[0] == q[0];
    TrimLeftPad(pad, q + rest);
    kept := TrimRightAround(q, rest);
  }

  lemma QuotedArgument(pad: bytes, ps: seq<Piece>, rest: bytes)
    requires AllSpace(pad) && PiecesOk(ps, "\"" + rest)
    ensures CString(Trim(pad + ("\"" + Spelled(ps) + "\"" + rest))) == Some(Means(ps))
  {
    hide Spelled, PiecesOk, Decoded, Trim, Means;
    var q := "\"" + Spelled(ps) + "\"";
    assert "\"" + Spelled(ps) + "\"" + rest == q + rest;
    var kept := TrimAround(pad, q, rest);
    PiecesOkBefore(ps, "\"" + rest, "\"" + kept);
    QuotedDecoded(ps, kept);
    TrimTwice(pad + (q + rest));
  }

  lemma StringApplied(d: Directive, rest: bytes, st: PrefState)
    requires StringField(d, EMPTY).Some?
    ensures var after := Apply(d, rest, st);
            match CString(rest)
            case Some(v) => StringField(d, after) == Some(if IsTrimmedField(d) then Trim(v) else v)
            case None => after == st
  {
    hide CString, Trim, ParseInt, IsOn, ToInt16, ToInt32, ToUint32;
  }

  /** A string in quotes sets the directive's field to what its pieces mean, whatever follows it. */
  lemma StringRead(before: seq<bytes>, d: Directive, lead: bytes, word: bytes, sep: byte, pad: bytes, ps: seq<Piece>, rest: bytes)
    requires NewlineFree(before) && StringField(d, EMPTY).Some? && AllSpace(pad) && PiecesOk(ps, "\"" + rest)
    requires IsLine(d, lead, word, sep, pad + ("\"" + Spelled(ps) + "\"" + rest))
    ensures StringField(d, ParseText(Unlines(before + [LineOf(lead, word, sep, pad + ("\"" + Spelled(ps) + "\"" + rest))])).st) ==
            Some(if IsTrimmedField(d) then Trim(Means(ps)) else Means(ps))
  {
    hide ParseText, ReadLine, Unlines, LineOf, IsLine, Trim, CString, Spelled, PiecesOk, Apply, IsTrimmedField, StringField;
    var arg := pad + ("\"" + Spelled(ps) + "\"" + rest);
    ReadAnySpelling(d, lead, word, sep, arg);
    StateAfterLine(before, LineOf(lead, word, sep, arg), Reading(d, Trim(arg)));
    QuotedArgument(pad, ps, rest);
    StringApplied(d, Trim(arg), ParseText(Unlines(before)).st);
  }

  /** An argument without its quotes changes nothing. */
  lemma StringRefused(before: seq<bytes>, d: Directive, lead: bytes, word: bytes, sep: byte, arg: bytes, ps: seq<Piece>, end: bytes)
    requires NewlineFree(before) && StringField(d, EMPTY).Some? && IsLine(d, lead, word, sep, arg)
    requires (Trim(arg) == "" || Trim(arg)[0] != '"')
             || ((end == [] || end == "\\") && PiecesOk(ps, end) && Trim(arg) == "\"" + Spelled(ps) + end)
    ensures ParseText(Unlines(before + [LineOf(lead, word, sep, arg)])).st == ParseText(Unlines(before)).st
  {
    hide ParseText, ReadLine, Unlines, LineOf, IsLine, Trim, Spelled, PiecesOk, Apply, Decoded;
    ReadAnySpelling(d, lead, word, sep, arg);
    StateAfterLine(before, LineOf(lead, word, sep, arg), Reading(d, Trim(arg)));
    TrimTwice(arg);
    if Trim(arg) == "" || Trim(arg)[0] != '"' {
      UnquotedRefused(Trim(arg));
    } else {
      UnclosedRefused(ps, end);
    }
    StringApplied(d, Trim(arg), ParseText(Unlines(before)).st);
  }

  // ---------- Flags and second spellings ----------

  function FlagField(d: Directive, st: PrefState): Option<bool> {
    match d
    case SaveSessionKeys => Some(st.saveSessionKeys)
    case ChatLogNoWarn => Some(st.chatLogNoWarn)
    case NoAutoRegister => Some(st.noAutoRegister)
    case _ => None
  }

  /** A flag is set by its word alone, whatever its argument says. */
  lemma FlagRead(before: seq<bytes>, d: Directive, lead: bytes, word: bytes, sep: byte, arg: bytes)
    requires NewlineFree(before) && FlagField(d, EMPTY).Some? && IsLine(d, lead, word, sep, arg)
    ensures FlagField(d, ParseText(Unlines(before + [LineOf(lead, word, sep, arg)])).st) == Some(true)
  {
    hide ParseText, ReadLine, Unlines, LineOf, IsLine, Trim;
    ReadAnySpelling(d, lead, word, sep, arg);
    StateAfterLine(before, LineOf(lead, word, sep, arg), Reading(d, Trim(arg)));
  }

  /** Two passwords have a second word. */
  lemma SecondSpellings(u: bytes)
    ensures u == "OPERATORPASSWORD" ==> Recognize(u) == WizardPassword
    ensures u == "OWNERPASSWORD" ==> Recognize(u) == GodPassword
  {
    hide Word;
    WordLengths();
    if u == "OPERATORPASSWORD" {
      assert |u| == 16;
    } else if u == "OWNERPASSWORD" {
      assert |u| == 13;
    }
  }

  lemma WordLengths()
    ensures |Word(ServerName)| == 10 && |Word(WizardPassword)| == 14 && |Word(WizardPasswordHash)| == 19
  {
  }

  // ---------- Warnings ----------

  /** A line that names the server but gives no readable string. */
  ghost predicate NamesBadly(line: bytes) {
    exists rest :: ReadLine(line) == Some(Reading(ServerName, rest)) && Decoded(Trim(rest)) == None
  }

  lemma ScanLineWarns(a: Scan, raw: bytes, ln: nat)
    ensures ScanLine(a, raw, ln).warnings == a.warnings + if NamesBadly(raw) then [BadServerName(ln + 1)] else []
  {
    hide Trim, SplitFirstToken, Recognize, ToUpper, Apply, Decoded, IsBanner;
    var line := Trim(raw);
    assert a.warnings + [] == a.warnings;
    TrimTwice(raw);
    BannersAreComments(line);
    if line != "" {
      TokenOfLine(line);
    }
  }

  lemma TokenOfLine(line: bytes)
    requires line != "" && Trim(line) == line
    ensures SplitFirstToken(line).token != ""
  {
    hide Trim;
    assert Trimmed(Trim(line));
  }

  lemma BannersAreComments(line: bytes)
    ensures IsBanner(line) ==> HasPrefix(line, ";")
  {
    if IsBanner(line) {
      assert line != [] && line[0] == ';';
    }
  }

  ghost predicate WarnedOf(ls: seq<bytes>, ln: nat, w: Warning) {
    exists i :: 0 <= i < |ls| && NamesBadly(ls[i]) && w == BadServerName(ln + i + 1)
  }

  /** The warning is about a line that names the server badly; lines count from one. */
  ghost predicate NamedBadlyAt(ls: seq<bytes>, w: Warning) {
    exists i :: 0 <= i < |ls| && NamesBadly(ls[i]) && w == BadServerName(i + 1)
  }

  lemma WarnedFromOne(ls: seq<bytes>, w: Warning)
    ensures WarnedOf(ls, 0, w) <==> NamedBadlyAt(ls, w)
  {
    hide NamesBadly;
    if WarnedOf(ls, 0, w) {
      var i :| 0 <= i < |ls| && NamesBadly(ls[i]) && w == BadServerName(0 + i + 1);
      assert NamesBadly(ls[i]);
    }
    if i :| 0 <= i < |ls| && NamesBadly(ls[i]) && w == BadServerName(i + 1) {
      assert NamesBadly(ls[i]);
    }
  }

  lemma {:induction false} ScanWarns(a: Scan, ls: seq<bytes>, ln: nat, w: Warning)
    ensures w in ScanLines(a, ls, ln).warnings <==>
            w in a.warnings || WarnedOf(ls, ln, w)
    decreases |ls|
  {
    hide ScanLine, NamesBadly;
    if ls != [] {
      ScanLineWarns(a, ls[0], ln);
      ScanWarns(ScanLine(a, ls[0], ln), ls[1..], ln + 1, w);
      if i :| 0 <= i < |ls| && NamesBadly(ls[i]) && w == BadServerName(ln + i + 1) {
        assert i > 0 ==> ls[1..][i - 1] == ls[i];
      }
      if i :| 0 <= i < |ls[1..]| && NamesBadly(ls[1..][i]) && w == BadServerName(ln + 1 + i + 1) {
        assert ls[i + 1] == ls[1..][i];
      }
    }
  }

  /** The warnings are one for each line that names the server badly, with its number counted from one. */
  lemma WarnedIff(content: bytes, w: Warning)
    ensures w in ParseText(content).warnings <==> NamedBadlyAt(Lines(DropCr(content)), w)
  {
    hide ScanLines, Lines, DropCr, NamedBadlyAt, WarnedOf;
    ScanWarns(START, Lines(DropCr(content)), 0, w);
    WarnedFromOne(Lines(DropCr(content)), w);
  }
}
