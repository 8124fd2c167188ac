/** The two textual merge passes over pserver.prefs (internal/pserverprefs/merge.go). */
module PrefsMerge {
  import opened Wrappers
  import opened Bytes
  import opened Numbers
  import opened PalaceString
  import opened PrefsState
  import opened PrefsDirectives
  import opened PrefsParser
  import opened PrefsRoundTrip

  const YP_ADDR: bytes := "YPMYEXTADDR"
  const YP_PORT: bytes := "YPMYEXTPORT"
  const NAME: bytes := "SERVERNAME"
  const SYSOP: bytes := "SYSOP"

  // ---------- What a merge pass keeps ----------

  predicate Blank(line: bytes) {
    Trim(line) == ""
  }

  /** A line whose upper-cased trimmed text starts with one of the two words. */
  predicate Dropped(line: bytes, p: bytes, q: bytes) {
    !Blank(line) && (HasPrefix(ToUpper(Trim(line)), p) || HasPrefix(ToUpper(Trim(line)), q))
  }

  function Kept(ls: seq<bytes>, p: bytes, q: bytes): seq<bytes>
    decreases |ls|
  {
    if ls == [] then []
    else (if Dropped(ls[0], p, q) then [] else [ls[0]]) + Kept(ls[1..], p, q)
  }

  function DropBlankEnd(ls: seq<bytes>): seq<bytes>
    decreases |ls|
  {
    if ls != [] && Blank(ls[|ls| - 1]) then DropBlankEnd(ls[..|ls| - 1]) else ls
  }

  /** Only blank lines are taken off the end, and all of them are. */
  lemma {:induction false} BlankEnd(ls: seq<bytes>)
    ensures var r := DropBlankEnd(ls);
            && r <= ls
            && (forall i :: |r| <= i < |ls| ==> Blank(ls[i]))
            && (r == [] || !Blank(r[|r| - 1]))
    decreases |ls|
  {
    hide Blank;
    if ls != [] && Blank(ls[|ls| - 1]) {
      BlankEnd(ls[..|ls| - 1]);
    }
  }

  /** The lines of a text that survive a pass, trailing blank lines removed. */
  function Body(content: bytes, p: bytes, q: bytes): seq<bytes> {
    DropBlankEnd(Kept(Lines(DropCr(content)), p, q))
  }

  /** The loops of both passes: filter the lines, then pop trailing blank ones. */
  method KeepOthers(content: bytes, p: bytes, q: bytes) returns (out: seq<bytes>)
    ensures out == Body(content, p, q)
  {
    hide Trim, Lines, DropCr, ToUpper;
    var lines := Lines(DropCr(content));
    out := [];
    for i := 0 to |lines|
      invariant out + Kept(lines[i..], p, q) == Kept(lines, p, q)
    {
      var line := lines[i];
      ghost var before := out;
      var tl := Trim(line);
      if tl == "" {
        out := out + [line];
      } else {
        var u := ToUpper(tl);
        if !(HasPrefix(u, p) || HasPrefix(u, q)) {
          out := out + [line];
        }
      }
      KeptStep(lines, i, p, q, before, out);
    }
    assert lines[|lines|..] == [] && out + [] == out;
    while |out| > 0 && Trim(out[|out| - 1]) == ""
      invariant DropBlankEnd(out) == Body(content, p, q)
    {
      out := out[..|out| - 1];
    }
  }

  lemma KeptStep(lines: seq<bytes>, i: nat, p: bytes, q: bytes, before: seq<bytes>, after: seq<bytes>)
    requires i < |lines|
    requires after == if Dropped(lines[i], p, q) then before else before + [lines[i]]
    ensures before + Kept(lines[i..], p, q) == after + Kept(lines[i + 1..], p, q)
  {
    hide Dropped;
    assert lines[i..][0] == lines[i] && lines[i..][1..] == lines[i + 1..];
  }

  // ---------- The directory announcement ----------

  function AddrText(host: bytes): bytes {
    YP_ADDR + " " + Quoted(host)
  }

  function PortText(port: nat): bytes {
    YP_PORT + " " + Dec(port)
  }

  function YpLines(host: bytes, port: int): seq<bytes> {
    (if Trim(host) != "" then [AddrText(Trim(host))] else []) + (if port > 0 then [PortText(port)] else [])
  }

  /** A line a pass appends: no newline in it, and it does not end in white space. */
  predicate Solid(line: bytes) {
    NoNewline(line) && line != [] && !IsSpace(line[|line| - 1])
  }

  lemma AddrIsSolid(host: bytes)
    ensures Solid(AddrText(host))
  {
    QuotedIsTrimmed(host);
    hide Quoted;
  }

  lemma PortIsSolid(port: nat)
    ensures Solid(PortText(port))
  {
    var d := Digits(port, 10);
    assert Dec(port) == d;
    hide Digits;
  }

  function MergedYp(content: bytes, host: bytes, port: int): bytes {
    Unlines(Body(content, YP_ADDR, YP_PORT) + YpLines(host, port))
  }

  // The builder of both passes holds the joined lines written so far.

  lemma {:induction false} JoinSnoc(ls: seq<bytes>, x: bytes)
    ensures JoinLines(ls + [x]) == if ls == [] then x else JoinLines(ls) + "\n" + x
  {
    if ls == [] {
      assert ls + [x] == [x];
    } else {
      assert (ls + [x])[1..] == ls[1..] + [x];
      JoinSnoc(ls[1..], x);
    }
  }

  lemma {:induction false} JoinEnd(ls: seq<bytes>)
    requires ls != [] && ls[|ls| - 1] != []
    ensures var j := JoinLines(ls); var l := ls[|ls| - 1]; j != [] && j[|j| - 1] == l[|l| - 1]
  {
    if |ls| > 1 {
      JoinEnd(ls[1..]);
    }
  }

  predicate SolidEnd(ls: seq<bytes>) {
    ls == [] || (ls[|ls| - 1] != [] && ls[|ls| - 1][|ls[|ls| - 1]| - 1] != '\n')
  }

  /** Writing one more line into a builder that separates lines by newlines. */
  method WriteJoined(b: bytes, line: bytes, ghost ls: seq<bytes>) returns (r: bytes)
    requires b == JoinLines(ls) && SolidEnd(ls)
    ensures r == JoinLines(ls + [line])
  {
    r := b;
    if ls != [] {
      JoinEnd(ls);
    }
    if |r| > 0 {
      r := r + "\n";
    }
    r := r + line;
    JoinSnoc(ls, line);
  }

  /** The final newline of both passes. */
  method CloseText(b: bytes, ghost ls: seq<bytes>) returns (s: bytes)
    requires b == JoinLines(ls) && SolidEnd(ls)
    ensures s == Unlines(ls)
  {
    s := b;
    if ls != [] {
      JoinEnd(ls);
      JoinIsUnlines(ls);
    }
    if s != "" && s[|s| - 1] != '\n' {
      s := s + "\n";
    }
  }

  lemma BodyIsSolid(content: bytes, p: bytes, q: bytes)
    ensures SolidEnd(Body(content, p, q)) && NewlineFree(Body(content, p, q))
  {
    var ls := Lines(DropCr(content));
    hide Lines, DropCr;
    KeptIsNewlineFree(ls, p, q);
    EndIsSolid(Kept(ls, p, q));
  }

  lemma KeptIsNewlineFree(ls: seq<bytes>, p: bytes, q: bytes)
    requires NewlineFree(ls)
    ensures NewlineFree(Kept(ls, p, q))
  {
    KeptAreLines(ls, p, q);
    hide Kept;
  }

  lemma EndIsSolid(ls: seq<bytes>)
    requires NewlineFree(ls)
    ensures SolidEnd(DropBlankEnd(ls)) && NewlineFree(DropBlankEnd(ls))
  {
    hide DropBlankEnd;
    BlankEnd(ls);
    var r := DropBlankEnd(ls);
    assert NewlineFree(r);
    if r != [] {
      var last := r[|r| - 1];
      assert NoNewline(last) && !Blank(last);
      assert Trim("") == "";
      assert last != [] && last[|last| - 1] in last;
    }
  }

  lemma {:induction false} KeptAreLines(ls: seq<bytes>, p: bytes, q: bytes)
    ensures forall i :: 0 <= i < |Kept(ls, p, q)| ==> Kept(ls, p, q)[i] in ls && !Dropped(Kept(ls, p, q)[i], p, q)
    decreases |ls|
  {
    hide Dropped;
    if ls != [] {
      KeptAreLines(ls[1..], p, q);
    }
  }

  method MergeYPAnnounce(content: bytes, host: bytes, port: int) returns (s: bytes)
    ensures s == MergedYp(content, host, port)
  {
    hide Trim, Body, Quoted, Dec, JoinLines, Unlines, Solid;
    var out := KeepOthers(content, YP_ADDR, YP_PORT);
    BodyIsSolid(content, YP_ADDR, YP_PORT);
    ghost var ls := out;
    var b := JoinLines(out);
    var h := Trim(host);
    if h != "" {
      var q := PalaceQuoted(h);
      b := WriteJoined(b, YP_ADDR + " " + q, ls);
      ls := ls + [AddrText(h)];
      AddrIsSolid(h);
      SolidSnoc(out, AddrText(h));
    }
    assert ls == out + (if h != "" then [AddrText(h)] else []);
    if port > 0 {
      b := WriteJoined(b, YP_PORT + " " + Dec(port), ls);
      PortIsSolid(port);
      SolidSnoc(ls, PortText(port));
      ls := ls + [PortText(port)];
    }
    s := CloseText(b, ls);
    assert ls == out + YpLines(host, port);
  }

  lemma SolidSnoc(ls: seq<bytes>, line: bytes)
    requires Solid(line)
    ensures SolidEnd(ls + [line])
  {
  }

  // ---------- Server name and operator ----------

  function NameText(serverName: bytes): bytes {
    NAME + " " + Quoted(serverName)
  }

  function SysopText(sysop: bytes): bytes {
    SYSOP + " " + Quoted(sysop)
  }

  function IdentityLines(serverName: bytes, sysop: bytes): seq<bytes> {
    (if Trim(serverName) != "" then [NameText(Trim(serverName))] else [])
    + (if Trim(sysop) != "" then [SysopText(Trim(sysop))] else [])
  }

  function MergedIdentity(content: bytes, serverName: bytes, sysop: bytes): bytes {
    Unlines(Body(content, NAME, SYSOP) + IdentityLines(serverName, sysop))
  }

  lemma IdentityIsSolid(v: bytes)
    ensures Solid(NameText(v)) && Solid(SysopText(v))
  {
    QuotedIsTrimmed(v);
    hide Quoted;
  }

  method MergeServerNameSysop(content: bytes, serverName: bytes, sysop: bytes) returns (s: bytes)
    ensures s == MergedIdentity(content, serverName, sysop)
  {
    hide Trim, Body, Quoted, JoinLines, Unlines, Solid;
    var out := KeepOthers(content, NAME, SYSOP);
    BodyIsSolid(content, NAME, SYSOP);
    ghost var ls := out;
    var b := JoinLines(out);
    var n, o := Trim(serverName), Trim(sysop);
    if n != "" {
      var q := PalaceQuoted(n);
      b := WriteJoined(b, NAME + " " + q, ls);
      ls := ls + [NameText(n)];
      IdentityIsSolid(n);
      SolidSnoc(out, NameText(n));
    }
    assert ls == out + (if n != "" then [NameText(n)] else []);
    if o != "" {
      var q := PalaceQuoted(o);
      b := WriteJoined(b, SYSOP + " " + q, ls);
      IdentityIsSolid(o);
      SolidSnoc(ls, SysopText(o));
      ls := ls + [SysopText(o)];
    }
    s := CloseText(b, ls);
    assert ls == out + IdentityLines(serverName, sysop);
  }
}
