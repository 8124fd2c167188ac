/** What a read of the audit log returns on any file, told line by line: broken lines, blank lines and a last
    line without its end included. */
module AuditLines {
  import opened Wrappers
  import opened Bytes
  import opened AuditTail

  /** A line that is not blank and decodes. */
  predicate Readable(c: Codec, line: bytes) {
    line != "" && c.dec(line).Some?
  }

  function ReadableLines(c: Codec, ls: seq<bytes>): (r: seq<bytes>)
    ensures forall i :: 0 <= i < |r| ==> Readable(c, r[i])
  {
    if ls == [] then []
    else ReadableLines(c, ls[..|ls| - 1]) + if Readable(c, ls[|ls| - 1]) then [ls[|ls| - 1]] else []
  }

  /** The entries are those of the readable lines, in order. */
  ghost predicate AreEntriesOf(c: Codec, es: seq<Entry>, lines: seq<bytes>) {
    |es| == |lines| && forall i :: 0 <= i < |es| ==> c.dec(lines[i]) == Some(es[i])
  }

  lemma {:induction false} ReadableCons(c: Codec, line: bytes, ls: seq<bytes>)
    ensures ReadableLines(c, [line] + ls) == (if Readable(c, line) then [line] else []) + ReadableLines(c, ls)
  {
    hide Readable;
    var all := [line] + ls;
    if ls == [] {
      assert all == [line] && all[..0] == [];
    } else {
      assert all[..|all| - 1] == [line] + ls[..|ls| - 1];
      ReadableCons(c, line, ls[..|ls| - 1]);
    }
  }

  lemma {:induction false} LastLineLength(line: bytes)
    requires NoNewline(line)
    ensures LineLength(line) == |line|
  {
    if line != [] {
      LastLineLength(line[1..]);
    }
  }

  lemma EntryOfLine(c: Codec, line: bytes)
    ensures AreEntriesOf(c, EntryOf(c, line), if Readable(c, line) then [line] else [])
  {
  }

  lemma EntriesAppend(c: Codec, es: seq<Entry>, fs: seq<Entry>, a: seq<bytes>, b: seq<bytes>)
    requires AreEntriesOf(c, es, a) && AreEntriesOf(c, fs, b)
    ensures AreEntriesOf(c, es + fs, a + b)
  {
  }

  lemma LastScanned(c: Codec, last: bytes)
    requires NoNewline(last)
    ensures AreEntriesOf(c, Scanned(c, last), ReadableLines(c, [last]))
  {
    hide LineLength;
    LastLineLength(last);
    NothingScanned(c);
    ReadableCons(c, last, []);
    EntryOfLine(c, last);
    assert [last] + [] == [last] && ReadableLines(c, []) == [];
    if last != [] {
      ScanStep(c, last);
      assert last[..|last|] == last && last[|last|..] == [];
      assert Chomped(last) == last;
    }
  }

  /** A whole file gives the entries of its readable lines in order, its last line included even without an end. */
  lemma {:induction false} FileRead(c: Codec, ls: seq<bytes>, last: bytes)
    requires NewlineFree(ls) && NoNewline(last)
    ensures AreEntriesOf(c, Scanned(c, Unlines(ls) + last), ReadableLines(c, ls + [last]))
    decreases |ls|
  {
    hide LineLength, Scanned, EntryOf, ReadableLines, AreEntriesOf;
    if ls == [] {
      LastScanned(c, last);
      assert Unlines(ls) + last == last && ls + [last] == [last];
    } else {
      var line, rest := ls[0], Unlines(ls[1..]) + last;
      var t := line + "\n" + rest;
      assert Unlines(ls) + last == t;
      LineEnds(line, rest);
      assert t[..|line| + 1] == line + "\n" && Chomped(line + "\n") == line && t[|line| + 1..] == rest;
      ScanStep(c, t);
      EntryOfLine(c, line);
      FileRead(c, ls[1..], last);
      assert ls + [last] == [line] + (ls[1..] + [last]);
      ReadableCons(c, line, ls[1..] + [last]);
      EntriesAppend(c, EntryOf(c, line), Scanned(c, rest), if Readable(c, line) then [line] else [], ReadableLines(c, ls[1..] + [last]));
    }
  }

  /** A file within the window is read from its first line. */
  lemma SmallFileRead(c: Codec, ls: seq<bytes>, last: bytes, window: nat)
    requires NewlineFree(ls) && NoNewline(last) && |Unlines(ls) + last| <= window
    ensures AreEntriesOf(c, Recent(c, Unlines(ls) + last, window), ReadableLines(c, ls + [last]))
  {
    hide LineLength, Scanned, ReadableLines, AreEntriesOf;
    FileRead(c, ls, last);
  }

  /** Of a larger file the line that the window begins in is dropped, even when it is a whole one. */
  lemma LargeFileRead(c: Codec, before: bytes, partial: bytes, ls: seq<bytes>, last: bytes)
    requires before != "" && NoNewline(partial) && NewlineFree(ls) && NoNewline(last)
    ensures var tail := partial + "\n" + (Unlines(ls) + last);
            AreEntriesOf(c, Recent(c, before + tail, |tail|), ReadableLines(c, ls + [last]))
  {
    hide LineLength, Scanned, ReadableLines, AreEntriesOf;
    var rest := Unlines(ls) + last;
    var tail := partial + "\n" + rest;
    LineEnds(partial, rest);
    FileRead(c, ls, last);
    assert (before + tail)[|before|..] == tail && tail[|partial| + 1..] == rest;
  }

  /** Without a line end in the window nothing is read. */
  lemma NoLineInWindow(c: Codec, before: bytes, partial: bytes)
    requires before != "" && NoNewline(partial)
    ensures Recent(c, before + partial, |partial|) == []
  {
    hide LineLength, Scanned;
    LastLineLength(partial);
    NothingScanned(c);
    assert (before + partial)[|before|..] == partial && partial[|partial|..] == [];
  }
}
