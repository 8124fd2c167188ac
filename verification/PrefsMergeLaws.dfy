/** What the merge passes over pserver.prefs keep, for every text. */
module PrefsMergeLaws {
  import opened Wrappers
  import opened Bytes
  import opened Numbers
  import opened PalaceString
  import opened PrefsState
  import opened PrefsDirectives
  import opened PrefsParser
  import opened PrefsRoundTrip
  import opened PrefsMerge
  import PrefsRenderer

  // ---------- Dropped lines and directives ----------

  /** The token of a line starts with every blank-free prefix of the line. */
  lemma TokenPrefix(line: bytes, p: bytes)
    requires Trim(line) == line && line != []
    requires HasPrefix(ToUpper(line), p)
    requires forall i :: 0 <= i < |p| ==> IsWordByte(p[i])
    ensures HasPrefix(ToUpper(SplitFirstToken(line).token), p)
  {
    hide Trim;
    forall j | 0 <= j < |p| ensures line[j] != ' ' && line[j] != '\t' {
      assert ToUpper(line)[j] == p[j];
    }
  }

  predicate IsWordByte(c: byte) {
    'A' <= c <= 'Z' || c == '_'
  }

  /** The token's upper-cased text starts the upper-cased line. */
  lemma TokenStartsLine(line: bytes)
    requires Trim(line) == line && line != []
    ensures HasPrefix(ToUpper(line), ToUpper(SplitFirstToken(line).token))
  {
    hide Trim;
    var i := IndexBlank(line);
    if i == |line| {
      assert ToUpper(ToUpper(line)) == ToUpper(line);
    } else {
      assert ToUpper(line)[..i] == ToUpper(line[..i]);
    }
  }

  lemma TellingLetters()
    ensures YP_ADDR[0] == 'Y' && YP_ADDR[2] == 'M' && |YP_ADDR| == 11
    ensures YP_PORT[0] == 'Y' && YP_PORT[2] == 'M' && |YP_PORT| == 11
    ensures NAME[0] == 'S' && NAME[6] == 'N' && |NAME| == 10
    ensures SYSOP[0] == 'S' && SYSOP[1] == 'Y' && |SYSOP| == 5
  {
  }

  lemma TellingWordLetters()
    ensures |Word(YpDirectoryList)| > 2 && Word(YpDirectoryList)[2] == 'D'
    ensures |Word(ServerOptions)| > 6 && Word(ServerOptions)[6] == 'O' && Word(ServerOptions)[1] == 'E'
    ensures |Word(SaveSessionKeys)| > 6 && Word(SaveSessionKeys)[6] == 'S' && Word(SaveSessionKeys)[1] == 'A'
  {
  }

  /** Only the announcement directives start with the announcement words. */
  lemma YpPrefixWord(u: bytes)
    requires HasPrefix(u, YP_ADDR) || HasPrefix(u, YP_PORT)
    ensures Recognize(u) == YpMyExtAddr || Recognize(u) == YpMyExtPort || Recognize(u) == Unrecognized
  {
    hide Recognize, Word, WordMark;
    YpStart(u);
    TellingWordLetters();
    RecognizedIsWord(u);
    SecondSpellingsHaveMarks();
    var d := Recognize(u);
    if d != Unrecognized {
      WordHasMark(d);
      WordsWithY(d);
    }
  }

  lemma YpStart(u: bytes)
    requires HasPrefix(u, YP_ADDR) || HasPrefix(u, YP_PORT)
    ensures |u| >= 11 && u[0] == 'Y' && u[2] == 'M'
  {
    TellingLetters();
  }

  lemma WordsWithY(d: Directive)
    requires d != Unrecognized && WordMark(d).first == 'Y' && WordMark(d).len >= 11
    ensures d.YpMyExtAddr? || d.YpMyExtPort? || d.YpDirectoryList?
  {
  }

  /** Only SERVERNAME and SYSOP start with those words. */
  lemma IdentityPrefixWord(u: bytes)
    requires HasPrefix(u, NAME) || HasPrefix(u, SYSOP)
    ensures Recognize(u) == ServerName || Recognize(u) == PrefsDirectives.Sysop || Recognize(u) == Unrecognized
  {
    hide Recognize, Word, WordMark;
    IdentityStart(u);
    TellingWordLetters();
    RecognizedIsWord(u);
    SecondSpellingsHaveMarks();
    var d := Recognize(u);
    if d != Unrecognized {
      WordHasMark(d);
      WordsWithS(d);
    }
  }

  lemma WordsWithS(d: Directive)
    requires d != Unrecognized && WordMark(d).first == 'S'
    ensures d.ServerName? || d.Sysop? || d.ServerOptions? || d.SaveSessionKeys?
  {
  }

  lemma IdentityStart(u: bytes)
    requires HasPrefix(u, NAME) || HasPrefix(u, SYSOP)
    ensures u != [] && u[0] == 'S' && (u[1] == 'Y' || (|u| >= 10 && u[6] == 'N'))
  {
    TellingLetters();
  }

  /** A line the announcement pass drops carries nothing the parser stores. */
  lemma DroppedYp(line: bytes)
    requires Dropped(line, YP_ADDR, YP_PORT)
    ensures ReadLine(line) == None || ReadLine(line).value.d in {YpMyExtAddr, YpMyExtPort}
  {
    hide Trim, Recognize, SplitFirstToken, ToUpper, IsWordText;
    var t := Trim(line);
    TrimTwice(line);
    WordTexts();
    TokenIsPrefixed(t, YP_ADDR, YP_PORT);
    YpPrefixWord(ToUpper(SplitFirstToken(t).token));
  }

  /** A line the identity pass drops carries at most a name or an operator. */
  lemma DroppedIdentity(line: bytes)
    requires Dropped(line, NAME, SYSOP)
    ensures ReadLine(line) == None || ReadLine(line).value.d in {ServerName, PrefsDirectives.Sysop}
  {
    hide Trim, Recognize, SplitFirstToken, ToUpper, IsWordText;
    var t := Trim(line);
    TrimTwice(line);
    WordTexts();
    TokenIsPrefixed(t, NAME, SYSOP);
    IdentityPrefixWord(ToUpper(SplitFirstToken(t).token));
  }

  predicate IsWordText(p: bytes) {
    forall i :: 0 <= i < |p| ==> IsWordByte(p[i])
  }

  lemma WordTexts()
    ensures IsWordText(YP_ADDR) && IsWordText(YP_PORT) && IsWordText(NAME) && IsWordText(SYSOP)
  {
  }

  lemma IdentityWords()
    ensures Word(ServerName) == NAME && Word(PrefsDirectives.Sysop) == SYSOP
  {
  }

  lemma TokenIsPrefixed(t: bytes, p: bytes, q: bytes)
    requires Trim(t) == t && t != []
    requires HasPrefix(ToUpper(t), p) || HasPrefix(ToUpper(t), q)
    requires IsWordText(p) && IsWordText(q)
    ensures var u := ToUpper(SplitFirstToken(t).token); HasPrefix(u, p) || HasPrefix(u, q)
  {
    hide SplitFirstToken, Trim, ToUpper;
    if HasPrefix(ToUpper(t), p) {
      TokenPrefix(t, p);
    } else {
      TokenPrefix(t, q);
    }
  }

  /** Every line that names or sets the operator is dropped by the identity pass. */
  lemma IdentityDropped(line: bytes)
    requires ReadLine(line).Some? && ReadLine(line).value.d in {ServerName, PrefsDirectives.Sysop}
    ensures Dropped(line, NAME, SYSOP)
  {
    hide Trim, Recognize, SplitFirstToken, ToUpper, Word;
    var t := Trim(line);
    TrimTwice(line);
    TokenStartsLine(t);
    IdentityWords();
    RecognizedIsWord(ToUpper(SplitFirstToken(t).token));
  }

  // ---------- Text made of lines ----------

  lemma StrippedReads(line: bytes)
    ensures ReadLine(StripCr(line)) == ReadLine(line)
  {
    hide Trim, Recognize, SplitFirstToken, ToUpper;
    StripCrTrim(line);
  }

  lemma {:induction false} FoldStripped(ls: seq<bytes>, st: PrefState)
    ensures FoldState(StripCrAll(ls), st) == FoldState(ls, st)
    decreases |ls|
  {
    hide ReadLine, Apply, StripCr;
    if ls != [] {
      assert StripCrAll(ls)[1..] == StripCrAll(ls[1..]);
      StrippedReads(ls[0]);
      FoldStripped(ls[1..], ApplyLine(ls[0], st));
    }
  }

  /** The lines a terminated text is read as. */
  lemma ReadLinesOf(ls: seq<bytes>)
    requires NewlineFree(ls)
    ensures NewlineFree(StripCrAll(ls)) && Lines(DropCr(Unlines(ls))) == StripCrAll(ls) + [""]
  {
    forall i | 0 <= i < |ls| ensures NoNewline(StripCrAll(ls)[i]) {
      assert StripCr(ls[i]) <= ls[i];
      assert forall c :: c in StripCr(ls[i]) ==> c in ls[i];
    }
    DropCrUnlines(ls);
    LinesOfUnlines(StripCrAll(ls));
  }

  /** The state parsed from a terminated text is the fold of its lines. */
  lemma StateOfUnlines(ls: seq<bytes>)
    requires NewlineFree(ls)
    ensures ParseText(Unlines(ls)).st == FoldState(ls, EMPTY)
  {
    hide FoldState, ParseText, Lines, DropCr, Unlines;
    ParsedState(Unlines(ls));
    ReadLinesOf(ls);
    FoldStateAppend(StripCrAll(ls), [""], EMPTY);
    FoldBlank("", FoldState(StripCrAll(ls), EMPTY));
    FoldStripped(ls, EMPTY);
  }

  lemma FoldBlank(line: bytes, st: PrefState)
    requires Blank(line)
    ensures FoldState([line], st) == st
  {
    hide Trim, Recognize, SplitFirstToken, ToUpper, Apply;
    FoldOne(line, st);
  }

  lemma {:induction false} FoldBlanks(ls: seq<bytes>, st: PrefState)
    requires forall i :: 0 <= i < |ls| ==> Blank(ls[i])
    ensures FoldState(ls, st) == st
    decreases |ls|
  {
    hide Trim, Recognize, SplitFirstToken, ToUpper, Apply;
    if ls != [] {
      assert ApplyLine(ls[0], st) == st;
      FoldBlanks(ls[1..], st);
    }
  }

  lemma FoldWithoutBlankEnd(ls: seq<bytes>, st: PrefState)
    ensures FoldState(DropBlankEnd(ls), st) == FoldState(ls, st)
  {
    hide FoldState, Trim, DropBlankEnd;
    BlankEnd(ls);
    var r := DropBlankEnd(ls);
    var blanks := ls[|r|..];
    assert ls == r + blanks;
    FoldStateAppend(r, blanks, st);
    FoldBlanks(blanks, FoldState(r, st));
  }

  // ---------- Kept lines ----------

  lemma {:induction false} KeptAppend(a: seq<bytes>, b: seq<bytes>, p: bytes, q: bytes)
    ensures Kept(a + b, p, q) == Kept(a, p, q) + Kept(b, p, q)
    decreases |a|
  {
    hide Dropped;
    if a == [] {
      assert a + b == b;
    } else {
      assert (a + b)[1..] == a[1..] + b;
      KeptAppend(a[1..], b, p, q);
    }
  }

  lemma {:induction false} KeptAll(ls: seq<bytes>, p: bytes, q: bytes)
    requires forall i :: 0 <= i < |ls| ==> !Dropped(ls[i], p, q)
    ensures Kept(ls, p, q) == ls
    decreases |ls|
  {
    hide Dropped;
    if ls != [] {
      KeptAll(ls[1..], p, q);
    }
  }

  lemma {:induction false} KeptNone(ls: seq<bytes>, p: bytes, q: bytes)
    requires forall i :: 0 <= i < |ls| ==> Dropped(ls[i], p, q)
    ensures Kept(ls, p, q) == []
    decreases |ls|
  {
    hide Dropped;
    if ls != [] {
      KeptNone(ls[1..], p, q);
    }
  }

  lemma DroppedStripped(line: bytes, p: bytes, q: bytes)
    ensures Dropped(StripCr(line), p, q) == Dropped(line, p, q)
  {
    hide Trim, ToUpper, StripCr;
    StripCrTrim(line);
  }

  lemma {:induction false} KeptStripped(ls: seq<bytes>, p: bytes, q: bytes)
    ensures Kept(StripCrAll(ls), p, q) == StripCrAll(Kept(ls, p, q))
    decreases |ls|
  {
    hide Dropped, StripCr;
    if ls != [] {
      DroppedStripped(ls[0], p, q);
      assert StripCrAll(ls)[1..] == StripCrAll(ls[1..]);
      KeptStripped(ls[1..], p, q);
      var first := if Dropped(ls[0], p, q) then [] else [ls[0]];
      StripAppend(first, Kept(ls[1..], p, q));
      StripFirst(ls[0], Dropped(ls[0], p, q));
    }
  }

  lemma StripFirst(line: bytes, dropped: bool)
    ensures StripCrAll(if dropped then [] else [line]) == if dropped then [] else [StripCr(line)]
  {
    hide StripCr;
  }

  lemma {:induction false} BlankEndDropped(ls: seq<bytes>, blank: bytes)
    requires Blank(blank)
    ensures DropBlankEnd(ls + [blank]) == DropBlankEnd(ls)
  {
    assert (ls + [blank])[..|ls|] == ls;
  }

  lemma BlankLine()
    ensures Blank("")
  {
  }

  /** The lines a pass keeps of a terminated text. */
  lemma BodyOfUnlines(ls: seq<bytes>, p: bytes, q: bytes)
    requires NewlineFree(ls)
    ensures Body(Unlines(ls), p, q) == DropBlankEnd(StripCrAll(Kept(ls, p, q)))
  {
    hide Kept, DropBlankEnd, Lines, DropCr, Unlines, Dropped, Blank;
    BlankLine();
    ReadLinesOf(ls);
    KeptAppend(StripCrAll(ls), [""], p, q);
    KeptStripped(ls, p, q);
    BlankKept(p, q);
    BlankEndDropped(StripCrAll(Kept(ls, p, q)), "");
  }

  lemma BlankKept(p: bytes, q: bytes)
    ensures Kept([""], p, q) == [""]
  {
    BlankLine();
    var ls: seq<bytes> := [""];
    assert ls[1..] == [];
  }

  // ---------- The announcement pass ----------

  lemma YpLineEffects(host: bytes, port: nat)
    ensures ReadLine(AddrText(host)) == Some(Reading(YpMyExtAddr, Quoted(host)))
    ensures ReadLine(PortText(port)) == Some(Reading(YpMyExtPort, Trim(Dec(port))))
  {
    hide ReadLine, Trim, Quoted, Dec;
    YpWords();
    ReadQuoted(host);
    ReadPrinted(YpMyExtAddr, Quoted(host));
    DecStart(port);
    ReadPrinted(YpMyExtPort, Dec(port));
  }

  lemma YpWords()
    ensures Word(YpMyExtAddr) == YP_ADDR && Word(YpMyExtPort) == YP_PORT
  {
  }

  lemma DecStart(port: nat)
    ensures !IsSpace(Dec(port)[0])
  {
    hide Digits;
  }

  lemma StartsDropped(line: bytes, p: bytes, q: bytes)
    requires Solid(line) && p != [] && IsWordText(p) && HasPrefix(line, p)
    ensures Dropped(line, p, q) && Dropped(line, q, p)
  {
    hide Trim;
    TrimFixed(line);
    assert ToUpper(line)[..|p|] == p;
  }

  lemma YpLinesDropped(host: bytes, port: int)
    ensures forall i :: 0 <= i < |YpLines(host, port)| ==> Dropped(YpLines(host, port)[i], YP_ADDR, YP_PORT)
  {
    hide Trim, Quoted, Dec, Dropped, IsWordText, Solid;
    WordTexts();
    AddrIsSolid(Trim(host));
    StartsDropped(AddrText(Trim(host)), YP_ADDR, YP_PORT);
    if port > 0 {
      PortIsSolid(port);
      StartsDropped(PortText(port), YP_PORT, YP_ADDR);
    }
  }

  lemma YpLinesAreLines(host: bytes, port: int)
    ensures NewlineFree(YpLines(host, port)) && NoCrEnd(YpLines(host, port))
  {
    hide Trim, Quoted, Dec;
    AddrIsSolid(Trim(host));
    if port > 0 {
      PortIsSolid(port);
    }
  }

  lemma BodyIsKept(content: bytes, p: bytes, q: bytes)
    ensures forall i :: 0 <= i < |Body(content, p, q)| ==> !Dropped(Body(content, p, q)[i], p, q)
  {
    hide Lines, DropCr, Dropped, Kept, DropBlankEnd;
    KeptAreLines(Lines(DropCr(content)), p, q);
    BlankEnd(Kept(Lines(DropCr(content)), p, q));
  }

  /** A second pass keeps what the first kept, except that it strips carriage returns at line ends. */
  lemma SecondBody(kept: seq<bytes>, added: seq<bytes>, p: bytes, q: bytes)
    requires NewlineFree(kept) && NewlineFree(added)
    requires forall i :: 0 <= i < |kept| ==> !Dropped(kept[i], p, q)
    requires forall i :: 0 <= i < |added| ==> Dropped(added[i], p, q)
    requires kept == [] || !Blank(kept[|kept| - 1])
    ensures Body(Unlines(kept + added), p, q) == StripCrAll(kept)
  {
    hide Dropped, Kept, Unlines, Body, StripCr;
    BodyOfUnlines(kept + added, p, q);
    KeptAppend(kept, added, p, q);
    KeptAll(kept, p, q);
    KeptNone(added, p, q);
    assert kept + [] == kept;
    if kept != [] {
      StripCrTrim(kept[|kept| - 1]);
    }
    hide Trim;
    NoBlankEnd(StripCrAll(kept));
  }

  lemma NoBlankEnd(ls: seq<bytes>)
    requires ls == [] || !Blank(ls[|ls| - 1])
    ensures DropBlankEnd(ls) == ls
  {
  }

  lemma BodyEnd(content: bytes, p: bytes, q: bytes)
    ensures var b := Body(content, p, q); b == [] || !Blank(b[|b| - 1])
  {
    hide Lines, DropCr, Kept, Blank, DropBlankEnd;
    BlankEnd(Kept(Lines(DropCr(content)), p, q));
  }

  lemma StripAppend(a: seq<bytes>, b: seq<bytes>)
    ensures StripCrAll(a + b) == StripCrAll(a) + StripCrAll(b)
  {
    hide StripCr;
  }

  /** Announcing twice is announcing once exactly when no line of the body ends in a carriage return. */
  lemma AnnouncedTwice(content: bytes, host: bytes, port: int)
    ensures MergedYp(MergedYp(content, host, port), host, port) == MergedYp(content, host, port)
       <==> NoCrEnd(Body(content, YP_ADDR, YP_PORT))
  {
    hide Body, YpLines, Unlines, Dropped, Blank, StripCr, NoCrEnd;
    var kept := Body(content, YP_ADDR, YP_PORT);
    var added := YpLines(host, port);
    BodyIsSolid(content, YP_ADDR, YP_PORT);
    BodyIsKept(content, YP_ADDR, YP_PORT);
    BodyEnd(content, YP_ADDR, YP_PORT);
    YpLinesDropped(host, port);
    YpLinesAreLines(host, port);
    SecondBody(kept, added, YP_ADDR, YP_PORT);
    StripCrFixed(kept);
    ReadLinesOf(kept);
    if Unlines(StripCrAll(kept) + added) == Unlines(kept + added) {
      UnlinesInjective(StripCrAll(kept) + added, kept + added);
      assert (StripCrAll(kept) + added)[..|kept|] == StripCrAll(kept);
      assert (kept + added)[..|kept|] == kept;
    }
  }

  // ---------- The parsed state ----------

  lemma {:induction false} FoldKeptYp(ls: seq<bytes>, st: PrefState)
    ensures FoldState(Kept(ls, YP_ADDR, YP_PORT), st) == FoldState(ls, st)
    decreases |ls|
  {
    hide ReadLine, Dropped;
    if ls != [] {
      FoldKeptYp(ls[1..], ApplyLine(ls[0], st));
      var rest := Kept(ls[1..], YP_ADDR, YP_PORT);
      if Dropped(ls[0], YP_ADDR, YP_PORT) {
        DroppedYp(ls[0]);
        assert [] + rest == rest;
      } else {
        assert ([ls[0]] + rest)[1..] == rest;
      }
    }
  }

  lemma FoldNothing(st: PrefState)
    ensures FoldState([], st) == st
  {
  }

  lemma FoldAddr(host: bytes, st: PrefState)
    ensures FoldState([AddrText(host)], st) == st
  {
    hide ReadLine, Quoted, AddrText, FoldState, Apply;
    YpLineEffects(host, 0);
    FoldOne(AddrText(host), st);
    ApplyIgnored(YpMyExtAddr, Quoted(host), st);
  }

  lemma FoldPort(port: nat, st: PrefState)
    ensures FoldState([PortText(port)], st) == st
  {
    hide ReadLine, Trim, Dec, PortText, FoldState, Apply;
    YpLineEffects("", port);
    FoldOne(PortText(port), st);
    ApplyIgnored(YpMyExtPort, Trim(Dec(port)), st);
  }

  lemma FoldYpLines(host: bytes, port: int, st: PrefState)
    ensures FoldState(YpLines(host, port), st) == st
  {
    hide Trim, AddrText, PortText, FoldState;
    FoldNothing(st);
    var h := Trim(host);
    FoldAddr(h, st);
    var addr := if h != "" then [AddrText(h)] else [];
    var announced := if port > 0 then [PortText(port)] else [];
    FoldStateAppend(addr, announced, st);
    if port > 0 {
      FoldPort(port, st);
    }
  }

  /** Announcing does not change what the parser reads, for any text, host and port. */
  lemma MergeYpKeepsState(content: bytes, host: bytes, port: int)
    ensures ParseText(MergedYp(content, host, port)).st == ParseText(content).st
  {
    hide ParseText, YpLines, FoldState, Unlines, Lines, DropCr, Kept, DropBlankEnd;
    var ls := Lines(DropCr(content));
    var kept := Body(content, YP_ADDR, YP_PORT);
    BodyIsSolid(content, YP_ADDR, YP_PORT);
    YpLinesAreLines(host, port);
    StateOfUnlines(kept + YpLines(host, port));
    FoldStateAppend(kept, YpLines(host, port), EMPTY);
    FoldYpLines(host, port, FoldState(kept, EMPTY));
    FoldWithoutBlankEnd(Kept(ls, YP_ADDR, YP_PORT), EMPTY);
    FoldKeptYp(ls, EMPTY);
    ParsedState(content);
  }

  // ---------- The identity pass ----------

  /** A state without its name and operator. */
  function Others(st: PrefState): PrefState {
    st.(serverName := "", sysop := "")
  }

  predicate IsIdentity(d: Directive) {
    d.ServerName? || d.Sysop?
  }

  lemma ApplyOthers(d: Directive, rest: bytes, a: PrefState)
    ensures Others(Apply(d, rest, a)) == if IsIdentity(d) then Others(a) else Apply(d, rest, Others(a))
  {
    hide Apply, Others;
    match d {
      case ServerName => ApplyIdentity(d, rest, a);
      case Sysop => ApplyIdentity(d, rest, a);
      case WizardPassword => ApplyOthersPasswords(d, rest, a);
      case WizardPasswordHash => ApplyOthersPasswords(d, rest, a);
      case GodPassword => ApplyOthersPasswords(d, rest, a);
      case GodPasswordHash => ApplyOthersPasswords(d, rest, a);
      case HostPasswordHash => ApplyOthersPasswords(d, rest, a);
      case PicFolder => ApplyOthersPasswords(d, rest, a);
      case Permissions => ApplyOthersLimits(d, rest, a);
      case DeathPenalty => ApplyOthersLimits(d, rest, a);
      case MaxOccupancy => ApplyOthersLimits(d, rest, a);
      case RoomOccupancy => ApplyOthersLimits(d, rest, a);
      case MinFloodEvents => ApplyOthersLimits(d, rest, a);
      case PurgePropDays => ApplyOthersLimits(d, rest, a);
      case AutoPurge => ApplyOthersUpkeep(d, rest, a);
      case MaxSessionId => ApplyOthersUpkeep(d, rest, a);
      case ServerOptions => ApplyOthersUpkeep(d, rest, a);
      case SaveSessionKeys => ApplyOthersUpkeep(d, rest, a);
      case Url => ApplyOthersUpkeep(d, rest, a);
      case Website => ApplyOthersUpkeep(d, rest, a);
      case Motd => ApplyOthersAbout(d, rest, a);
      case Blurb => ApplyOthersAbout(d, rest, a);
      case HttpUrl => ApplyOthersAbout(d, rest, a);
      case AutoAnnounce => ApplyOthersAnnounce(d, rest, a);
      case ChatLog => ApplyOthersAnnounce(d, rest, a);
      case ChatLogFile => ApplyOthersLogging(d, rest, a);
      case ChatLogNoWarn => ApplyOthersLogging(d, rest, a);
      case ChatLogFormat => ApplyOthersLast(d, rest, a);
      case NoAutoRegister => ApplyOthersLast(d, rest, a);
      case MachineType => ApplyIgnored(d, rest, a); ApplyIgnored(d, rest, Others(a));
      case YpMyExtAddr => ApplyIgnored(d, rest, a); ApplyIgnored(d, rest, Others(a));
      case YpMyExtPort => ApplyIgnored(d, rest, a); ApplyIgnored(d, rest, Others(a));
      case AutoRegister => ApplyIgnored(d, rest, a); ApplyIgnored(d, rest, Others(a));
      case YpDirectoryList => ApplyIgnored(d, rest, a); ApplyIgnored(d, rest, Others(a));
      case YpAddr => ApplyIgnored(d, rest, a); ApplyIgnored(d, rest, Others(a));
      case Unrecognized => ApplyIgnored(d, rest, a); ApplyIgnored(d, rest, Others(a));
    }
  }

  lemma ApplyIdentity(d: Directive, rest: bytes, a: PrefState)
    requires IsIdentity(d)
    ensures Others(Apply(d, rest, a)) == Others(a)
  {
    hide CString, ParseInt, IsOn, Trim, ToInt16, ToInt32, ToUint32, StringOr, TrimmedStringOr;
  }

  lemma ApplyOthersPasswords(d: Directive, rest: bytes, a: PrefState)
    requires d.WizardPassword? || d.WizardPasswordHash? || d.GodPassword? || d.GodPasswordHash?
             || d.HostPasswordHash? || d.PicFolder?
    ensures Others(Apply(d, rest, a)) == Apply(d, rest, Others(a))
  {
    hide CString, ParseInt, IsOn, Trim, ToInt16, ToInt32, ToUint32, StringOr, TrimmedStringOr;
  }

  lemma ApplyOthersLimits(d: Directive, rest: bytes, a: PrefState)
    requires d.Permissions? || d.DeathPenalty? || d.MaxOccupancy? || d.RoomOccupancy?
             || d.MinFloodEvents? || d.PurgePropDays?
    ensures Others(Apply(d, rest, a)) == Apply(d, rest, Others(a))
  {
    hide CString, ParseInt, IsOn, Trim, ToInt16, ToInt32, ToUint32, StringOr, TrimmedStringOr;
  }

  lemma ApplyOthersUpkeep(d: Directive, rest: bytes, a: PrefState)
    requires d.AutoPurge? || d.MaxSessionId? || d.ServerOptions? || d.SaveSessionKeys?
             || d.Url? || d.Website?
    ensures Others(Apply(d, rest, a)) == Apply(d, rest, Others(a))
  {
    hide CString, ParseInt, IsOn, Trim, ToInt16, ToInt32, ToUint32, StringOr, TrimmedStringOr;
  }

  lemma ApplyOthersAbout(d: Directive, rest: bytes, a: PrefState)
    requires d.Motd? || d.Blurb? || d.HttpUrl?
    ensures Others(Apply(d, rest, a)) == Apply(d, rest, Others(a))
  {
    hide CString, ParseInt, IsOn, Trim, ToInt16, ToInt32, ToUint32, StringOr, TrimmedStringOr;
  }

  lemma ApplyOthersAnnounce(d: Directive, rest: bytes, a: PrefState)
    requires d.AutoAnnounce? || d.ChatLog?
    ensures Others(Apply(d, rest, a)) == Apply(d, rest, Others(a))
  {
    hide CString, ParseInt, IsOn, Trim, ToInt16, ToInt32, ToUint32, StringOr, TrimmedStringOr;
  }

  lemma ApplyOthersLogging(d: Directive, rest: bytes, a: PrefState)
    requires d.ChatLogFile? || d.ChatLogNoWarn?
    ensures Others(Apply(d, rest, a)) == Apply(d, rest, Others(a))
  {
    hide CString, ParseInt, IsOn, Trim, ToInt16, ToInt32, ToUint32, StringOr, TrimmedStringOr;
  }

  lemma ApplyOthersLast(d: Directive, rest: bytes, a: PrefState)
    requires d.ChatLogFormat? || d.NoAutoRegister?
    ensures Others(Apply(d, rest, a)) == Apply(d, rest, Others(a))
  {
    hide CString, ParseInt, IsOn, Trim, ToInt16, ToInt32, ToUint32, StringOr, TrimmedStringOr;
  }

  lemma ApplyIgnored(d: Directive, rest: bytes, a: PrefState)
    requires d.MachineType? || d.YpMyExtAddr? || d.YpMyExtPort? || d.AutoRegister?
             || d.YpDirectoryList? || d.YpAddr? || d.Unrecognized?
    ensures Apply(d, rest, a) == a
  {
    hide StringOr, TrimmedStringOr;
  }

  lemma LineOthers(line: bytes, a: PrefState)
    ensures Others(ApplyLine(line, a)) == if Dropped(line, NAME, SYSOP) then Others(a) else ApplyLine(line, Others(a))
  {
    hide ReadLine, Apply, Dropped, Others;
    if ReadLine(line).Some? {
      var r := ReadLine(line).value;
      ApplyOthers(r.d, r.rest, a);
      if IsIdentity(r.d) {
        IdentityDropped(line);
      }
    }
    if Dropped(line, NAME, SYSOP) {
      DroppedIdentity(line);
    }
  }

  lemma {:induction false} FoldOthers(ls: seq<bytes>, a: PrefState)
    ensures FoldState(Kept(ls, NAME, SYSOP), Others(a)) == Others(FoldState(ls, a))
    decreases |ls|
  {
    hide ApplyLine, Dropped, Others;
    if ls != [] {
      LineOthers(ls[0], a);
      FoldOthers(ls[1..], ApplyLine(ls[0], a));
      var rest := Kept(ls[1..], NAME, SYSOP);
      if Dropped(ls[0], NAME, SYSOP) {
        assert [] + rest == rest;
      } else {
        assert ([ls[0]] + rest)[1..] == rest;
      }
    }
  }

  lemma FoldName(v: bytes, st: PrefState)
    ensures FoldState([NameText(v)], st) == st.(serverName := v)
    ensures FoldState([SysopText(v)], st) == st.(sysop := v)
  {
    hide Quoted, Trim, FoldState, Recognize, SplitFirstToken, ToUpper, CString, Word;
    IdentityWords();
    ReadQuoted(v);
    ReadPrinted(ServerName, Quoted(v));
    ReadPrinted(PrefsDirectives.Sysop, Quoted(v));
    hide ReadLine;
    FoldOne(NameText(v), st);
    FoldOne(SysopText(v), st);
  }

  lemma FoldIdentity(serverName: bytes, sysop: bytes, st: PrefState)
    requires st.serverName == "" && st.sysop == ""
    ensures FoldState(IdentityLines(serverName, sysop), st) == st.(serverName := Trim(serverName), sysop := Trim(sysop))
  {
    hide Trim, NameText, SysopText, FoldState;
    FoldNothing(st);
    var n, o := Trim(serverName), Trim(sysop);
    var first := if n != "" then [NameText(n)] else [];
    var second := if o != "" then [SysopText(o)] else [];
    FoldStateAppend(first, second, st);
    FoldName(n, st);
    var named := st.(serverName := n);
    assert FoldState(first, st) == named;
    FoldNothing(named);
    FoldName(o, named);
  }

  lemma IdentityLinesAreLines(serverName: bytes, sysop: bytes)
    ensures NewlineFree(IdentityLines(serverName, sysop))
  {
    hide Trim, NameText, SysopText;
    IdentityIsSolid(Trim(serverName));
    IdentityIsSolid(Trim(sysop));
  }

  /** The identity pass replaces the name and the operator by its trimmed arguments and changes
      nothing else the parser reads. */
  lemma MergeIdentityState(content: bytes, serverName: bytes, sysop: bytes)
    ensures ParseText(MergedIdentity(content, serverName, sysop)).st
         == ParseText(content).st.(serverName := Trim(serverName), sysop := Trim(sysop))
  {
    hide ParseText, IdentityLines, FoldState, Unlines, Lines, DropCr, Kept, DropBlankEnd, Trim;
    var ls := Lines(DropCr(content));
    var kept := Body(content, NAME, SYSOP);
    BodyIsSolid(content, NAME, SYSOP);
    IdentityLinesAreLines(serverName, sysop);
    StateOfUnlines(kept + IdentityLines(serverName, sysop));
    FoldStateAppend(kept, IdentityLines(serverName, sysop), EMPTY);
    FoldWithoutBlankEnd(Kept(ls, NAME, SYSOP), EMPTY);
    FoldOthers(ls, EMPTY);
    ParsedState(content);
    FoldIdentity(serverName, sysop, Others(FoldState(ls, EMPTY)));
  }

  // ---------- How often a word occurs ----------

  /** The number of lines whose text starts with the word. */
  function CountWord(ls: seq<bytes>, p: bytes): nat
    decreases |ls|
  {
    if ls == [] then 0 else (if Dropped(ls[0], p, p) then 1 else 0) + CountWord(ls[1..], p)
  }

  lemma {:induction false} CountAppend(a: seq<bytes>, b: seq<bytes>, p: bytes)
    ensures CountWord(a + b, p) == CountWord(a, p) + CountWord(b, p)
    decreases |a|
  {
    hide Dropped;
    if a == [] {
      assert a + b == b;
    } else {
      assert (a + b)[1..] == a[1..] + b;
      CountAppend(a[1..], b, p);
    }
  }

  lemma {:induction false} CountNone(ls: seq<bytes>, p: bytes)
    requires forall i :: 0 <= i < |ls| ==> !Dropped(ls[i], p, p)
    ensures CountWord(ls, p) == 0
    decreases |ls|
  {
    hide Dropped;
    if ls != [] {
      CountNone(ls[1..], p);
    }
  }

  lemma CountOne(line: bytes, p: bytes)
    ensures CountWord([line], p) == if Dropped(line, p, p) then 1 else 0
  {
    hide Dropped;
    var ls: seq<bytes> := [line];
    assert ls[1..] == [];
  }

  lemma NotBoth(line: bytes, p: bytes, q: bytes)
    requires Solid(line) && IsWordText(p) && HasPrefix(line, p) && p != []
    requires |q| >= |p| && p != q[..|p|]
    ensures !Dropped(line, q, q)
  {
    hide Trim;
    TrimFixed(line);
    assert ToUpper(line)[..|p|] == p;
  }

  lemma YpLineCounts(host: bytes, port: int)
    ensures CountWord(YpLines(host, port), YP_ADDR) == if Trim(host) != "" then 1 else 0
    ensures CountWord(YpLines(host, port), YP_PORT) == if port > 0 then 1 else 0
  {
    hide Trim, Quoted, Dec, Dropped, IsWordText, Solid, CountWord;
    var h := Trim(host);
    var addr := if h != "" then [AddrText(h)] else [];
    var announced := if port > 0 then [PortText(port)] else [];
    CountAppend(addr, announced, YP_ADDR);
    CountAppend(addr, announced, YP_PORT);
    CountNone([], YP_ADDR);
    CountNone([], YP_PORT);
    AddrCounts(h);
    if port > 0 {
      PortCounts(port);
    }
  }

  lemma YpWordsDiffer()
    ensures YP_ADDR[..11] == YP_ADDR && YP_PORT[..11] == YP_PORT && YP_ADDR != YP_PORT
  {
    assert YP_ADDR[7] == 'A' && YP_PORT[7] == 'P';
  }

  lemma AddrCounts(host: bytes)
    ensures CountWord([AddrText(host)], YP_ADDR) == 1 && CountWord([AddrText(host)], YP_PORT) == 0
  {
    hide Quoted, Dropped, IsWordText, Solid, CountWord;
    WordTexts();
    TellingLetters();
    YpWordsDiffer();
    AddrIsSolid(host);
    CountOne(AddrText(host), YP_ADDR);
    CountOne(AddrText(host), YP_PORT);
    StartsDropped(AddrText(host), YP_ADDR, YP_ADDR);
    NotBoth(AddrText(host), YP_ADDR, YP_PORT);
  }

  lemma PortCounts(port: nat)
    ensures CountWord([PortText(port)], YP_ADDR) == 0 && CountWord([PortText(port)], YP_PORT) == 1
  {
    hide Dec, Dropped, IsWordText, Solid, CountWord;
    WordTexts();
    TellingLetters();
    YpWordsDiffer();
    PortIsSolid(port);
    CountOne(PortText(port), YP_ADDR);
    CountOne(PortText(port), YP_PORT);
    StartsDropped(PortText(port), YP_PORT, YP_PORT);
    NotBoth(PortText(port), YP_PORT, YP_ADDR);
  }

  /** An announced text has one address line if the trimmed host is not empty, one port line if the
      port is positive, and otherwise none. */
  lemma MergeYpCounts(content: bytes, host: bytes, port: int)
    ensures CountWord(Lines(MergedYp(content, host, port)), YP_ADDR) == if Trim(host) != "" then 1 else 0
    ensures CountWord(Lines(MergedYp(content, host, port)), YP_PORT) == if port > 0 then 1 else 0
  {
    hide Trim, YpLines, Body, Dropped, CountWord, Unlines;
    var kept := Body(content, YP_ADDR, YP_PORT);
    BodyIsSolid(content, YP_ADDR, YP_PORT);
    BodyIsKept(content, YP_ADDR, YP_PORT);
    YpLinesAreLines(host, port);
    LinesOfUnlines(kept + YpLines(host, port));
    YpLineCounts(host, port);
    forall p | p == YP_ADDR || p == YP_PORT
      ensures CountWord(kept + YpLines(host, port) + [""], p) == CountWord(YpLines(host, port), p)
    {
      CountAppend(kept + YpLines(host, port), [""], p);
      CountAppend(kept, YpLines(host, port), p);
      CountOne("", p);
      NeitherDropped("", p);
      forall i | 0 <= i < |kept| ensures !Dropped(kept[i], p, p) {
        EitherDropped(kept[i], p);
      }
      CountNone(kept, p);
    }
  }

  lemma NeitherDropped(line: bytes, p: bytes)
    requires line == ""
    ensures !Dropped(line, p, p)
  {
    BlankLine();
  }

  lemma EitherDropped(line: bytes, p: bytes)
    requires p == YP_ADDR || p == YP_PORT
    ensures Dropped(line, p, p) ==> Dropped(line, YP_ADDR, YP_PORT)
  {
    hide Trim, ToUpper;
  }
}
