/** When the announcement pass and the form save reach a fixed point, told by the lines of the text they are
    given. Both drop one carriage return before each line break, so a line with more of them changes again. */
module PrefsFixedPoints {
  import opened Wrappers
  import opened Bytes
  import opened PrefsState
  import opened PrefsDirectives
  import opened PrefsParser
  import opened PrefsRenderer
  import opened PrefsRoundTrip
  import opened PrefsMerge
  import opened PrefsMergeLaws
  import opened PrefsForm
  import opened PrefsFormLaws

  // ---------- Lines and carriage returns ----------

  predicate EndsCr(line: bytes) {
    line != [] && line[|line| - 1] == '\r'
  }

  /** A line as the passes see it: one carriage return before a line break is gone. */
  function Seen(ls: seq<bytes>, i: nat): bytes
    requires i < |ls|
  {
    if i + 1 < |ls| then StripCr(ls[i]) else ls[i]
  }

  function AllSeen(ls: seq<bytes>): (r: seq<bytes>)
    ensures |r| == |ls| && forall i :: 0 <= i < |ls| ==> r[i] == Seen(ls, i)
  {
    seq(|ls|, i requires 0 <= i < |ls| => Seen(ls, i))
  }

  lemma {:induction false} JoinOfLines(s: bytes)
    ensures JoinLines(Lines(s)) == s
  {
    if s != [] {
      JoinOfLines(s[1..]);
      var rest := Lines(s[1..]);
      if s[0] == '\n' {
        JoinFirst([], rest);
        assert [] + "\n" + s[1..] == s;
      } else {
        JoinPrefixed(s[0], rest);
        assert [s[0]] + s[1..] == s;
      }
    }
  }

  lemma JoinFirst(line: bytes, rest: seq<bytes>)
    requires rest != []
    ensures JoinLines([line] + rest) == line + "\n" + JoinLines(rest)
  {
    assert ([line] + rest)[1..] == rest;
  }

  lemma JoinPrefixed(c: byte, ls: seq<bytes>)
    requires ls != []
    ensures JoinLines([[c] + ls[0]] + ls[1..]) == [c] + JoinLines(ls)
  {
    var head, rest := ls[0], ls[1..];
    assert ls == [head] + rest;
    if rest == [] {
      assert [[c] + head] + rest == [[c] + head];
    } else {
      hide JoinLines;
      JoinFirst([c] + head, rest);
      JoinFirst(head, rest);
      assert [c] + head + "\n" + JoinLines(rest) == [c] + (head + "\n" + JoinLines(rest));
    }
  }

  lemma {:induction false} DropCrLast(line: bytes)
    requires NoNewline(line)
    ensures DropCr(line) == line
  {
    if line != [] {
      assert forall c :: c in line[1..] ==> c in line;
      DropCrLast(line[1..]);
      assert |line| > 1 ==> line[1] in line;
    }
  }

  lemma {:induction false} DropCrJoined(ls: seq<bytes>)
    requires ls != [] && NewlineFree(ls)
    ensures DropCr(JoinLines(ls)) == JoinLines(AllSeen(ls)) && NewlineFree(AllSeen(ls))
  {
    hide DropCr, StripCr;
    if |ls| == 1 {
      DropCrLast(ls[0]);
      assert AllSeen(ls) == ls;
    } else {
      DropCrJoined(ls[1..]);
      DropCrLine(ls[0], JoinLines(ls[1..]));
      StrippedIsLine(ls[0]);
      assert AllSeen(ls) == [StripCr(ls[0])] + AllSeen(ls[1..]);
      JoinFirst(StripCr(ls[0]), AllSeen(ls[1..]));
    }
  }

  lemma StrippedIsLine(line: bytes)
    requires NoNewline(line)
    ensures NoNewline(StripCr(line))
  {
    assert forall c :: c in StripCr(line) ==> c in line;
  }

  /** Dropping carriage returns from a text, line by line. */
  lemma LinesSeen(content: bytes)
    ensures Lines(DropCr(content)) == AllSeen(Lines(content))
  {
    hide Lines, DropCr, JoinLines;
    JoinOfLines(content);
    DropCrJoined(Lines(content));
    LinesOfJoin(AllSeen(Lines(content)));
  }

  // ---------- The announcement pass ----------

  ghost predicate Live(ls: seq<bytes>, i: int) {
    exists j :: i <= j < |ls| && 0 <= j && Staying(ls[j])
  }

  /** A line that is kept, and not as part of the blank lines at the end of what is kept. */
  ghost predicate KeptInside(ls: seq<bytes>, i: int) {
    0 <= i < |ls| && !Dropped(ls[i], YP_ADDR, YP_PORT) && Live(ls, i)
  }

  ghost predicate Strays(ls: seq<bytes>) {
    exists i :: 0 <= i < |ls| && KeptInside(ls, i) && EndsCr(ls[i])
  }

  lemma BlankEndCons(x: bytes, ls: seq<bytes>)
    ensures DropBlankEnd([x] + ls) == if DropBlankEnd(ls) == [] && Blank(x) then [] else [x] + DropBlankEnd(ls)
    decreases |ls|
  {
    hide Blank;
    var all := [x] + ls;
    if ls == [] {
      assert all == [x] && all[..0] == [];
    } else if Blank(ls[|ls| - 1]) {
      assert all[..|all| - 1] == [x] + ls[..|ls| - 1];
      BlankEndCons(x, ls[..|ls| - 1]);
    }
  }

  lemma LiveShift(ls: seq<bytes>, i: int)
    requires ls != [] && i >= 0
    ensures Live(ls, i + 1) <==> Live(ls[1..], i)
    ensures Live(ls, 0) <==> Staying(ls[0]) || Live(ls[1..], 0)
  {
    hide Staying;
    if j :| i + 1 <= j < |ls| && 0 <= j && Staying(ls[j]) {
      assert ls[1..][j - 1] == ls[j];
    }
    if j :| i <= j < |ls[1..]| && 0 <= j && Staying(ls[1..][j]) {
      assert ls[j + 1] == ls[1..][j];
    }
    if j :| 0 <= j < |ls| && Staying(ls[j]) {
      assert j > 0 ==> ls[1..][j - 1] == ls[j];
    }
    if j :| 0 <= j < |ls[1..]| && Staying(ls[1..][j]) {
      assert ls[j + 1] == ls[1..][j];
    }
  }

  lemma InsideShift(ls: seq<bytes>, i: int)
    requires ls != [] && i >= 0
    ensures KeptInside(ls, i + 1) <==> KeptInside(ls[1..], i)
  {
    hide Dropped, Live;
    LiveShift(ls, i);
  }

  lemma StraysCons(ls: seq<bytes>)
    requires ls != []
    ensures Strays(ls) <==> (KeptInside(ls, 0) && EndsCr(ls[0])) || Strays(ls[1..])
  {
    hide KeptInside, EndsCr;
    if i :| 0 <= i < |ls| && KeptInside(ls, i) && EndsCr(ls[i]) {
      if i > 0 {
        InsideShift(ls, i - 1);
        assert ls[1..][i - 1] == ls[i];
      }
    }
    if i :| 0 <= i < |ls[1..]| && KeptInside(ls[1..], i) && EndsCr(ls[1..][i]) {
      InsideShift(ls, i);
      assert ls[i + 1] == ls[1..][i];
    }
  }

  lemma NoCrCons(line: bytes, ls: seq<bytes>)
    ensures NoCrEnd([line] + ls) <==> !EndsCr(line) && NoCrEnd(ls)
  {
    var all := [line] + ls;
    assert forall i :: 0 <= i < |ls| ==> ls[i] == all[i + 1];
    assert all[0] == line;
  }

  /** The lines of a body end without carriage returns unless a kept line of the text strays. */
  lemma {:induction false} BodyCr(ls: seq<bytes>)
    ensures var b := DropBlankEnd(Kept(ls, YP_ADDR, YP_PORT)); (NoCrEnd(b) <==> !Strays(ls)) && (b == [] <==> !Live(ls, 0))
  {
    hide Dropped, Blank, DropBlankEnd, Strays, Live, EndsCr, NoCrEnd;
    if ls == [] {
      EmptyBody();
    } else {
      var line, rest := ls[0], ls[1..];
      var kept := Kept(rest, YP_ADDR, YP_PORT);
      BodyCr(rest);
      BlankEndCons(line, kept);
      StraysCons(ls);
      LiveShift(ls, 0);
      NoCrCons(line, DropBlankEnd(kept));
      NoCrNone();
      if Dropped(line, YP_ADDR, YP_PORT) {
        assert [] + kept == kept;
      }
    }
  }

  lemma EmptyBody()
    ensures DropBlankEnd(Kept([], YP_ADDR, YP_PORT)) == [] && NoCrEnd([]) && !Strays([]) && !Live([], 0)
  {
  }

  lemma NoCrNone()
    ensures NoCrEnd([])
  {
  }

  lemma SeenIsAlike(ls: seq<bytes>, i: nat)
    requires i < |ls|
    ensures Dropped(Seen(ls, i), YP_ADDR, YP_PORT) == Dropped(ls[i], YP_ADDR, YP_PORT)
    ensures Staying(Seen(ls, i)) == Staying(ls[i]) && KeepsRaw(Seen(ls, i)) == KeepsRaw(ls[i])
  {
    hide Dropped, StripCr, Trim, ReadLine;
    DroppedStripped(ls[i], YP_ADDR, YP_PORT);
    StripCrTrim(ls[i]);
    StrippedReads(ls[i]);
  }

  /** Announcing twice is announcing once if and only if no line that stays inside the text ends in a carriage
      return too many: two before a line break, or one at the end of the text. */
  lemma MergeYpIdempotent(content: bytes, host: bytes, port: int)
    ensures var ls := Lines(content);
            MergedYp(MergedYp(content, host, port), host, port) == MergedYp(content, host, port) <==>
            forall i :: KeptInside(ls, i) ==> !EndsCr(Seen(ls, i))
  {
    hide MergedYp, Lines, DropCr, Kept, DropBlankEnd, EndsCr, Seen, NoCrEnd, Staying, Dropped;
    var ls := Lines(content);
    AnnouncedTwice(content, host, port);
    LinesSeen(content);
    BodyCr(AllSeen(ls));
    forall i | 0 <= i < |ls| ensures KeptInside(AllSeen(ls), i) <==> KeptInside(ls, i) {
      InsideSeen(ls, i);
    }
  }

  lemma InsideSeen(ls: seq<bytes>, i: int)
    requires 0 <= i < |ls|
    ensures KeptInside(AllSeen(ls), i) <==> KeptInside(ls, i)
  {
    hide Dropped, Staying, Seen, KeepsRaw;
    forall j | 0 <= j < |ls|
      ensures Dropped(AllSeen(ls)[j], YP_ADDR, YP_PORT) == Dropped(ls[j], YP_ADDR, YP_PORT)
      ensures Staying(AllSeen(ls)[j]) == Staying(ls[j])
    {
      SeenIsAlike(ls, j);
    }
  }

  /** A text without carriage returns meets the condition. */
  lemma MergeYpIdempotentPlain(content: bytes, host: bytes, port: int)
    requires '\r' !in content
    ensures MergedYp(MergedYp(content, host, port), host, port) == MergedYp(content, host, port)
  {
    hide MergedYp, Lines, Live, EndsCr, Dropped, Seen;
    MergeYpIdempotent(content, host, port);
    NoCrLines(content);
  }

  lemma NoCrLines(content: bytes)
    requires '\r' !in content
    ensures forall i :: 0 <= i < |Lines(content)| ==> !EndsCr(Lines(content)[i]) && !EndsCr(Seen(Lines(content), i))
  {
    hide Lines;
    LinesWithout(content, '\r');
    var ls := Lines(content);
    forall i | 0 <= i < |ls| ensures !EndsCr(ls[i]) {
      assert ls[i] != [] ==> ls[i][|ls[i]| - 1] in ls[i];
    }
  }

  // ---------- The form save ----------

  predicate EndsBanner(line: bytes) {
    !Blank(line) && !IsBanner(Trim(line))
  }

  ghost predicate Past(ls: seq<bytes>, i: int) {
    exists j :: 0 <= j <= i && j < |ls| && EndsBanner(ls[j])
  }

  /** A line a save preserves: unknown to the parser, and not one of the banner lines at the start. */
  ghost predicate Preserved(ls: seq<bytes>, i: int) {
    0 <= i < |ls| && KeepsRaw(ls[i]) && Past(ls, i)
  }

  /** A preserved line that a second save would change: an announcing save takes off one more carriage return
      and drops some lines. */
  predicate CrLeft(seen: bytes, e: Option<Entry>) {
    if e.None? then EndsCr(seen) else !Dropped(seen, YP_ADDR, YP_PORT) && EndsCr(StripCr(seen))
  }

  ghost predicate PreservedFrom(done: bool, ls: seq<bytes>, i: int) {
    0 <= i < |ls| && KeepsRaw(ls[i]) && (done || Past(ls, i))
  }

  lemma ScanLineKeeps(a: Scan, raw: bytes, ln: nat)
    ensures var b := ScanLine(a, raw, ln);
            && b.bannerDone == (a.bannerDone || EndsBanner(raw))
            && b.unknown == a.unknown + if KeepsRaw(raw) && b.bannerDone then [raw] else []
  {
    hide Trim, SplitFirstToken, Recognize, ToUpper, Apply, CString, IsBanner;
    var line := Trim(raw);
    TrimTwice(raw);
    assert a.unknown + [] == a.unknown;
    if line != "" {
      TokenNonEmpty(line);
    }
  }

  lemma PreservedShift(done: bool, ls: seq<bytes>, i: int)
    requires ls != [] && i >= 0
    ensures PreservedFrom(done, ls, i + 1) <==> PreservedFrom(done || EndsBanner(ls[0]), ls[1..], i)
    ensures PreservedFrom(done, ls, 0) <==> KeepsRaw(ls[0]) && (done || EndsBanner(ls[0]))
  {
    hide KeepsRaw, EndsBanner;
    if j :| 0 <= j <= i + 1 && j < |ls| && EndsBanner(ls[j]) {
      assert j > 0 ==> ls[1..][j - 1] == ls[j];
    }
    if j :| 0 <= j <= i && j < |ls[1..]| && EndsBanner(ls[1..][j]) {
      assert ls[j + 1] == ls[1..][j];
    }
  }

  ghost predicate Found(done: bool, ls: seq<bytes>, u: bytes) {
    exists i :: 0 <= i < |ls| && PreservedFrom(done, ls, i) && ls[i] == u
  }

  lemma FoundCons(done: bool, ls: seq<bytes>, u: bytes)
    requires ls != []
    ensures var next := done || EndsBanner(ls[0]);
            Found(done, ls, u) <==> (KeepsRaw(ls[0]) && next && u == ls[0]) || Found(next, ls[1..], u)
  {
    hide KeepsRaw, EndsBanner, PreservedFrom;
    PreservedShift(done, ls, 0);
    if i :| 0 <= i < |ls| && PreservedFrom(done, ls, i) && ls[i] == u {
      if i > 0 {
        PreservedShift(done, ls, i - 1);
        assert ls[1..][i - 1] == u;
      }
    }
    var next := done || EndsBanner(ls[0]);
    if i :| 0 <= i < |ls[1..]| && PreservedFrom(next, ls[1..], i) && ls[1..][i] == u {
      PreservedShift(done, ls, i);
      assert ls[i + 1] == u;
    }
    if PreservedFrom(done, ls, 0) && u == ls[0] {
      assert Found(done, ls, u);
    }
  }

  /** The unknown lines are the preserved ones. */
  lemma {:induction false} ScanFinds(a: Scan, ls: seq<bytes>, ln: nat, u: bytes)
    ensures u in ScanLines(a, ls, ln).unknown <==> u in a.unknown || Found(a.bannerDone, ls, u)
    decreases |ls|
  {
    hide ScanLine, KeepsRaw, EndsBanner, Found;
    if ls == [] {
      NothingFound(a.bannerDone, u);
    } else {
      ScanLineKeeps(a, ls[0], ln);
      FoundCons(a.bannerDone, ls, u);
      ScanFinds(ScanLine(a, ls[0], ln), ls[1..], ln + 1, u);
    }
  }

  lemma NothingFound(done: bool, u: bytes)
    ensures !Found(done, [], u)
  {
  }

  lemma {:induction false} KeptHas(ls: seq<bytes>, u: bytes)
    ensures u in Kept(ls, YP_ADDR, YP_PORT) <==> u in ls && !Dropped(u, YP_ADDR, YP_PORT)
    decreases |ls|
  {
    hide Dropped;
    if ls != [] {
      assert ls == [ls[0]] + ls[1..];
      KeptHas(ls[1..], u);
    }
  }

  lemma NoCrByLine(ls: seq<bytes>)
    ensures NoCrEnd(ls) <==> forall u :: u in ls ==> !EndsCr(u)
    ensures NoCrEnd(StripCrAll(ls)) <==> forall u :: u in ls ==> !EndsCr(StripCr(u))
  {
    hide StripCr;
    if NoCrEnd(ls) {
      forall u | u in ls ensures !EndsCr(u) {
        var i :| 0 <= i < |ls| && ls[i] == u;
      }
    } else {
      var i :| 0 <= i < |ls| && EndsCr(ls[i]);
      assert ls[i] in ls;
    }
    if NoCrEnd(StripCrAll(ls)) {
      forall u | u in ls ensures !EndsCr(StripCr(u)) {
        var i :| 0 <= i < |ls| && ls[i] == u;
        assert StripCrAll(ls)[i] == StripCr(u);
      }
    } else {
      var i :| 0 <= i < |ls| && EndsCr(StripCrAll(ls)[i]);
      assert ls[i] in ls;
    }
  }

  lemma WrittenCr(unknown: seq<bytes>, e: Option<Entry>)
    ensures NoCrEnd(WrittenRaw(unknown, e)) <==> forall u :: u in unknown ==> !CrLeft(u, e)
  {
    hide Kept, Dropped, StripCr, EndsCr, NoCrEnd;
    if e.None? {
      NoCrByLine(unknown);
    } else {
      var kept := Kept(unknown, YP_ADDR, YP_PORT);
      NoCrByLine(kept);
      forall u ensures u in kept <==> u in unknown && !Dropped(u, YP_ADDR, YP_PORT) {
        KeptHas(unknown, u);
      }
    }
  }

  lemma PreservedSeen(ls: seq<bytes>, i: int)
    requires 0 <= i < |ls|
    ensures PreservedFrom(false, AllSeen(ls), i) <==> Preserved(ls, i)
  {
    hide KeepsRaw, Trim, StripCr, Dropped, Staying;
    SeenIsAlike(ls, i);
    forall j | 0 <= j < |ls| ensures EndsBanner(AllSeen(ls)[j]) == EndsBanner(ls[j]) {
      StripCrTrim(ls[j]);
    }
  }

  /** Opening a saved file and saving it unchanged writes the same bytes if and only if no preserved line of the
      existing file ends in a carriage return too many: two before a line break, or one at the end of the file, and
      one more of them when the save announces the palace. */
  lemma SaveFixedPoint(existing: bytes, form: Form, e: Option<Entry>)
    ensures var out := Saved(existing, form, ParseText(existing).unknownTail, e);
            var again := Saved(out, StateToForm(ParseText(out).st), ParseText(out).unknownTail, e);
            var ls := Lines(existing);
            again == out <==> forall i :: Preserved(ls, i) ==> !CrLeft(Seen(ls, i), e)
  {
    hide ParseText, Saved, StateToForm, WrittenRaw, Lines, DropCr, CrLeft, Preserved, PreservedFrom, NoCrEnd, Seen;
    hide ScanLines;
    var ls, unknown := Lines(existing), UnknownLines(existing);
    WrittenTwice(existing, form, e);
    WrittenCr(unknown, e);
    LinesSeen(existing);
    forall u ensures u in unknown <==> Found(false, AllSeen(ls), u) {
      ScanFinds(START, AllSeen(ls), 0, u);
    }
    forall i | 0 <= i < |ls| ensures PreservedFrom(false, AllSeen(ls), i) <==> Preserved(ls, i) {
      PreservedSeen(ls, i);
    }
    PreservedInside(ls);
    SameStrays(ls, unknown, e);
  }

  lemma PreservedInside(ls: seq<bytes>)
    ensures forall i :: Preserved(ls, i) ==> 0 <= i < |ls|
  {
  }

  lemma SameStrays(ls: seq<bytes>, unknown: seq<bytes>, e: Option<Entry>)
    requires forall u :: u in unknown <==> Found(false, AllSeen(ls), u)
    requires forall i :: 0 <= i < |ls| ==> (PreservedFrom(false, AllSeen(ls), i) <==> Preserved(ls, i))
    ensures (forall u :: u in unknown ==> !CrLeft(u, e)) <==> forall i :: Preserved(ls, i) ==> !CrLeft(Seen(ls, i), e)
  {
    hide CrLeft, Preserved, PreservedFrom, Seen;
    PreservedInside(ls);
    if forall u :: u in unknown ==> !CrLeft(u, e) {
      forall i | Preserved(ls, i) ensures !CrLeft(Seen(ls, i), e) {
        assert AllSeen(ls)[i] == Seen(ls, i);
        assert Found(false, AllSeen(ls), Seen(ls, i));
      }
    }
    if forall i :: Preserved(ls, i) ==> !CrLeft(Seen(ls, i), e) {
      forall u | u in unknown ensures !CrLeft(u, e) {
        var i :| 0 <= i < |ls| && PreservedFrom(false, AllSeen(ls), i) && AllSeen(ls)[i] == u;
      }
    }
  }

  /** For a file without carriage returns the second save always writes the same bytes. */
  lemma SaveFixedPointPlain(existing: bytes, form: Form, e: Option<Entry>)
    requires '\r' !in existing
    ensures var out := Saved(existing, form, ParseText(existing).unknownTail, e);
            Saved(out, StateToForm(ParseText(out).st), ParseText(out).unknownTail, e) == out
  {
    hide ParseText, Saved, StateToForm, Preserved, Lines, Seen, EndsCr, Dropped;
    SaveFixedPoint(existing, form, e);
    NoCrLines(existing);
    var ls := Lines(existing);
    PreservedInside(ls);
    forall i | 0 <= i < |ls| ensures !CrLeft(Seen(ls, i), e) {
      StillNoCr(Seen(ls, i));
    }
  }

  lemma StillNoCr(line: bytes)
    requires !EndsCr(line)
    ensures !EndsCr(StripCr(line))
  {
  }

  // ---------- Texts that change again ----------

  /** A comment with one carriage return too many: every announcement takes one off. */
  const STRAY_TEXT: bytes := ";x\r\r\n"

  lemma StrayLines()
    ensures Lines(STRAY_TEXT) == [";x\r\r", ""] && Seen(Lines(STRAY_TEXT), 0) == ";x\r" && EndsCr(";x\r")
    ensures Staying(";x\r\r") && KeepsRaw(";x\r\r") && !IsBanner(Trim(";x\r\r"))
  {
    var line: bytes := ";x\r\r";
    assert line + "\n" + "" == STRAY_TEXT;
    LinesCons(line, "");
    assert line == "" + ";x" + "\r\r";
    TrimPadded("", ";x", "\r\r");
    TrimFixed(";x");
    CommentStays(";x");
    hide IsBanner, Staying;
    NotBanner(";x");
    assert Trim(line) == ";x";
  }

  lemma NotBanner(t: bytes)
    requires |t| == 2
    ensures !IsBanner(t)
  {
  }

  /** A text that a second announcement changes. */
  lemma MergeYpNotIdempotent()
    ensures MergedYp(MergedYp(STRAY_TEXT, "", 0), "", 0) != MergedYp(STRAY_TEXT, "", 0)
  {
    hide MergedYp, Lines, EndsCr, Dropped, Blank;
    MergeYpIdempotent(STRAY_TEXT, "", 0);
    StrayLines();
    assert Live(Lines(STRAY_TEXT), 0);
  }

  /** A file that a second save changes, for a palace that is not in the registry. */
  lemma SaveNotFixed(form: Form)
    ensures var out := Saved(STRAY_TEXT, form, ParseText(STRAY_TEXT).unknownTail, None);
            Saved(out, StateToForm(ParseText(out).st), ParseText(out).unknownTail, None) != out
  {
    hide ParseText, Saved, StateToForm, Lines, EndsCr, IsBanner, Trim, ReadLine;
    SaveFixedPoint(STRAY_TEXT, form, None);
    StrayLines();
    var ls := Lines(STRAY_TEXT);
    assert EndsBanner(ls[0]);
    assert Past(ls, 0);
    assert Preserved(ls, 0) && CrLeft(Seen(ls, 0), None);
  }
}
