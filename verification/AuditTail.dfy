/** The audit log file and its tail window (internal/auditlog/auditlog.go). JSON is left out: a codec gives
    the text of an entry, without a line end, and reads it back. */
module AuditTail {
  import opened Wrappers
  import opened Bytes

  datatype Entry = Entry(
    ts: bytes, actor: bytes, actorRole: bytes, scopeTenant: bytes, palace: bytes, action: bytes,
    detail: map<bytes, bytes>)

  datatype Codec = Codec(enc: Entry -> bytes, dec: bytes -> Option<Entry>)

  /** The entry's text is one line and reads back as the entry. */
  predicate Faithful(c: Codec, e: Entry) {
    c.enc(e) != "" && NoNewline(c.enc(e)) && c.dec(c.enc(e)) == Some(e)
  }

  predicate AllFaithful(c: Codec, h: seq<Entry>) {
    forall e :: e in h ==> Faithful(c, e)
  }

  const MAX_TAIL_SCAN: nat := 0x80_0000

  // ---------- The file ----------

  function Record(c: Codec, e: Entry): bytes {
    c.enc(e) + "\n"
  }

  /** The file a history of appends leaves. */
  function FileOf(c: Codec, h: seq<Entry>): bytes {
    if h == [] then [] else Record(c, h[0]) + FileOf(c, h[1..])
  }

  /** The position of the first byte of the i-th entry. */
  function Offset(c: Codec, h: seq<Entry>, i: nat): nat
    requires i <= |h|
  {
    |FileOf(c, h[..i])|
  }

  // ---------- Reading lines ----------

  /** bufio's ReadBytes: everything up to and including the next line end, or what is left. */
  function LineLength(t: bytes): (n: nat)
    ensures n <= |t| && (t != [] ==> n > 0)
  {
    if t == [] then 0 else if t[0] == '\n' then 1 else 1 + LineLength(t[1..])
  }

  /** A line without its line end. */
  function Chomped(line: bytes): bytes {
    if line != [] && line[|line| - 1] == '\n' then line[..|line| - 1] else line
  }

  function EntryOf(c: Codec, line: bytes): seq<Entry> {
    if line == "" then []
    else
      match c.dec(line)
      case None => []
      case Some(e) => [e]
  }

  function Scanned(c: Codec, t: bytes): seq<Entry>
    decreases |t|
  {
    if t == [] then []
    else EntryOf(c, Chomped(t[..LineLength(t)])) + Scanned(c, t[LineLength(t)..])
  }

  /** What a read returns: the whole file, or what follows the first line end at or after the cut. */
  function Recent(c: Codec, t: bytes, window: nat): seq<Entry> {
    if |t| <= window then Scanned(c, t)
    else
      var tail := t[|t| - window..];
      Scanned(c, tail[LineLength(tail)..])
  }

  class AuditLog {
    const codec: Codec
    var content: bytes

    constructor (c: Codec)
      ensures codec == c && content == []
    {
      codec := c;
      content := [];
    }

    method Append(e: Entry)
      modifies this
      ensures content == old(content) + Record(codec, e)
    {
      var b := codec.enc(e);
      content := content + (b + ['\n']);
    }

    /** One line from a position on; ended says that the input ended before a line end. */
    method ReadBytes(from: nat) returns (line: bytes, ended: bool)
      requires from <= |content|
      ensures line == content[from..][..LineLength(content[from..])]
      ensures ended <==> line == [] || line[|line| - 1] != '\n'
    {
      var pos := from;
      while pos < |content| && content[pos] != '\n'
        invariant from <= pos <= |content|
        invariant LineLength(content[from..]) == pos - from + LineLength(content[pos..])
        invariant forall i :: from <= i < pos ==> content[i] != '\n'
      {
        assert content[pos..][1..] == content[pos + 1..];
        pos := pos + 1;
      }
      ended := pos == |content|;
      if !ended {
        pos := pos + 1;
      }
      line := content[from..pos];
      assert line == content[from..][..pos - from];
    }

    method ScanEntries(from: nat) returns (out: seq<Entry>)
      requires from <= |content|
      ensures out == Scanned(codec, content[from..])
    {
      hide LineLength, EntryOf, Scanned, Chomped;
      out := [];
      var pos := from;
      while true
        invariant from <= pos <= |content|
        invariant out + Scanned(codec, content[pos..]) == Scanned(codec, content[from..])
        decreases |content| - pos
      {
        ghost var t := content[pos..];
        var line, ended := ReadBytes(pos);
        ScanTurn(codec, t, out);
        if |line| == 0 && ended {
          return;
        }
        pos := pos + |line|;
        assert content[pos..] == t[|line|..];
        var text := WithoutEnd(line);
        EntryIs(codec, text);
        if |text| == 0 {
          if ended {
            break;
          }
          continue;
        }
        var e := codec.dec(text);
        if e.None? {
          if ended {
            break;
          }
          continue;
        }
        out := out + [e.value];
        if ended {
          break;
        }
      }
      assert Scanned(codec, content[pos..]) == [] && out + [] == out;
    }

    static method WithoutEnd(line: bytes) returns (text: bytes)
      ensures text == Chomped(line)
    {
      text := line;
      if |text| > 0 && text[|text| - 1] == '\n' {
        text := text[..|text| - 1];
      }
    }

    method ReadRecent() returns (out: seq<Entry>)
      ensures out == Recent(codec, content, MAX_TAIL_SCAN)
    {
      hide Scanned, LineLength;
      var size := |content|;
      if size == 0 {
        NothingScanned(codec);
        return [];
      }
      var start := 0;
      if size > MAX_TAIL_SCAN {
        start := size - MAX_TAIL_SCAN;
        if start > 0 {
          var line, _ := ReadBytes(start);
          assert content[start + |line|..] == content[start..][|line|..];
          start := start + |line|;
        }
        out := ScanEntries(start);
        return;
      }
      assert content[0..] == content;
      out := ScanEntries(0);
    }
  }

  lemma ScanStep(c: Codec, t: bytes)
    requires t != []
    ensures Scanned(c, t) == EntryOf(c, Chomped(t[..LineLength(t)])) + Scanned(c, t[LineLength(t)..])
  {
    hide LineLength, EntryOf, Chomped;
  }

  /** One turn of the scan: the line's entry, if it has one, and the rest; nothing follows a line without
      a line end. */
  lemma ScanTurn(c: Codec, t: bytes, before: seq<Entry>)
    ensures var line, rest := t[..LineLength(t)], t[LineLength(t)..];
            && (line == [] ==> before + Scanned(c, t) == before)
            && (line != [] ==> before + Scanned(c, t) == After(before, EntryOf(c, Chomped(line))) + Scanned(c, rest))
            && (line != [] && line[|line| - 1] != '\n' ==> Scanned(c, rest) == [])
  {
    hide LineLength, EntryOf, Chomped, Scanned;
    if t == [] {
      NothingScanned(c);
      assert before + [] == before;
    } else {
      ScanStep(c, t);
      var found, rest := EntryOf(c, Chomped(t[..LineLength(t)])), Scanned(c, t[LineLength(t)..]);
      AfterIs(before, found, rest);
      if t[LineLength(t) - 1] != '\n' {
        LastLine(c, t);
      }
    }
  }

  lemma AfterIs(before: seq<Entry>, found: seq<Entry>, rest: seq<Entry>)
    ensures before + (found + rest) == After(before, found) + rest
  {
    assert before + (found + rest) == before + found + rest;
  }

  function After(before: seq<Entry>, found: seq<Entry>): seq<Entry> {
    if found == [] then before else before + found
  }

  lemma EntryIs(c: Codec, text: bytes)
    ensures EntryOf(c, text) == if text == "" || c.dec(text).None? then [] else [c.dec(text).value]
  {
  }

  /** Nothing follows a line without a line end. */
  lemma {:induction false} LastLine(c: Codec, t: bytes)
    requires t != [] && t[LineLength(t) - 1] != '\n'
    ensures t[LineLength(t)..] == [] && Scanned(c, t[LineLength(t)..]) == []
    decreases |t|
  {
    if |t| > 1 {
      assert t[1..][LineLength(t[1..]) - 1] == t[LineLength(t) - 1];
      LastLine(c, t[1..]);
      assert t[1..][LineLength(t[1..])..] == t[LineLength(t)..];
    }
  }

  lemma NothingScanned(c: Codec)
    ensures Scanned(c, []) == []
  {
  }

  // ---------- What a read returns ----------

  lemma {:induction false} LineEnds(line: bytes, rest: bytes)
    requires NoNewline(line)
    ensures LineLength(line + "\n" + rest) == |line| + 1
  {
    if line != [] {
      assert (line + "\n" + rest)[1..] == line[1..] + "\n" + rest;
      LineEnds(line[1..], rest);
    }
  }

  /** Reading a whole file gives back its history. */
  lemma {:induction false} FileScanned(c: Codec, h: seq<Entry>)
    requires AllFaithful(c, h)
    ensures Scanned(c, FileOf(c, h)) == h
  {
    hide LineLength;
    if h != [] {
      assert h[0] in h && Faithful(c, h[0]);
      var line, rest := c.enc(h[0]), FileOf(c, h[1..]);
      var t := line + "\n" + rest;
      LineEnds(line, rest);
      assert t[..|line| + 1] == line + "\n" && Chomped(line + "\n") == line && t[|line| + 1..] == rest;
      FileScanned(c, h[1..]);
      assert [h[0]] + h[1..] == h;
    }
  }

  /** The number of entries whose first byte is at or before the cut. */
  function Cut(c: Codec, h: seq<Entry>, cut: int): (k: nat)
    ensures k <= |h|
  {
    if h == [] || cut < 0 then 0 else 1 + Cut(c, h[1..], cut - |Record(c, h[0])|)
  }

  /** Entries before the cut index start at or before the cut, the others strictly after it. */
  lemma {:induction false} CutMeaning(c: Codec, h: seq<Entry>, cut: int, i: nat)
    requires i < |h|
    ensures i < Cut(c, h, cut) <==> Offset(c, h, i) <= cut
  {
    hide Record;
    if i == 0 {
      assert h[..0] == [];
    } else {
      assert h[..i][0] == h[0] && h[..i][1..] == h[1..][..i - 1];
      OffsetStep(c, h, i);
      CutMeaning(c, h[1..], cut - |Record(c, h[0])|, i - 1);
    }
  }

  lemma OffsetStep(c: Codec, h: seq<Entry>, i: nat)
    requires 0 < i <= |h|
    ensures Offset(c, h, i) == |Record(c, h[0])| + Offset(c, h[1..], i - 1)
  {
    hide Record;
    assert h[..i][0] == h[0] && h[..i][1..] == h[1..][..i - 1];
  }

  /** Dropping the line the cut falls into leaves the file of the entries after the cut. */
  lemma {:induction false} TailDropped(c: Codec, h: seq<Entry>, cut: nat)
    requires AllFaithful(c, h) && cut < |FileOf(c, h)|
    ensures var tail := FileOf(c, h)[cut..]; tail[LineLength(tail)..] == FileOf(c, h[Cut(c, h, cut)..])
  {
    hide LineLength;
    var line, rest := c.enc(h[0]), FileOf(c, h[1..]);
    var t, n := line + "\n" + rest, |line| + 1;
    assert h[0] in h && Faithful(c, h[0]) && FileOf(c, h) == t;
    if cut < n {
      var tail := line[cut..] + "\n" + rest;
      assert t[cut..] == tail;
      LineEnds(line[cut..], rest);
      assert tail[n - cut..] == rest;
      assert Cut(c, h[1..], cut - n) == 0 && h[1..] == h[1..][0..];
    } else {
      assert t[cut..] == rest[cut - n..];
      TailDropped(c, h[1..], cut - n);
      assert h[1..][Cut(c, h[1..], cut - n)..] == h[Cut(c, h, cut)..];
    }
  }

  /** A read of a file written only by appends returns the whole history when the file fits the window,
      and otherwise exactly the entries whose first byte lies strictly after size minus window: a suffix
      of the history, in append order. */
  lemma RecentIsSuffix(c: Codec, h: seq<Entry>, window: nat) returns (k: nat)
    requires AllFaithful(c, h)
    ensures k <= |h| && Recent(c, FileOf(c, h), window) == h[k..]
    ensures forall i :: 0 <= i < |h| ==>
              (i >= k <==> |FileOf(c, h)| <= window || Offset(c, h, i) > |FileOf(c, h)| - window)
  {
    hide LineLength, Scanned, FileOf, Offset, AllFaithful;
    var t := FileOf(c, h);
    if |t| <= window {
      k := 0;
      FileScanned(c, h);
      assert h[0..] == h;
    } else {
      if window == 0 {
        k := |h|;
        EmptyWindow(c, h);
      } else {
        k := Cut(c, h, |t| - window);
        TailDropped(c, h, |t| - window);
        SuffixFaithful(c, h, k);
        FileScanned(c, h[k..]);
        forall i | 0 <= i < |h| ensures i >= k <==> Offset(c, h, i) > |t| - window {
          CutMeaning(c, h, |t| - window, i);
        }
      }
    }
  }

  lemma SuffixFaithful(c: Codec, h: seq<Entry>, k: nat)
    requires AllFaithful(c, h) && k <= |h|
    ensures AllFaithful(c, h[k..])
  {
  }

  lemma EmptyWindow(c: Codec, h: seq<Entry>)
    ensures |FileOf(c, h)| > 0 ==> Recent(c, FileOf(c, h), 0) == h[|h|..]
    ensures forall i :: 0 <= i < |h| ==> Offset(c, h, i) <= |FileOf(c, h)|
  {
    hide Record;
    forall i | 0 <= i < |h| ensures Offset(c, h, i) <= |FileOf(c, h)| {
      OffsetBound(c, h, i);
    }
  }

  lemma {:induction false} OffsetBound(c: Codec, h: seq<Entry>, i: nat)
    requires i <= |h|
    ensures Offset(c, h, i) <= |FileOf(c, h)|
  {
    hide Record;
    if i > 0 {
      OffsetStep(c, h, i);
      OffsetBound(c, h[1..], i - 1);
    } else {
      assert h[..0] == [];
    }
  }

  /** Appending to a file is appending to its history. */
  lemma {:induction false} FileGrows(c: Codec, h: seq<Entry>, e: Entry)
    ensures FileOf(c, h + [e]) == FileOf(c, h) + Record(c, e)
  {
    hide Record;
    if h == [] {
      assert h + [e] == [e] && [e][1..] == [];
    } else {
      assert (h + [e])[1..] == h[1..] + [e];
      FileGrows(c, h[1..], e);
    }
  }
}
