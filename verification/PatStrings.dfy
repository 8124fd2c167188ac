/** Quoted text in a PAT file, however it is escaped, and where no string can be read. */
module PatStrings {
  import opened Bytes
  import opened NumberLaws
  import opened PatScanner

  /** A byte as it stands, a quote or backslash after a backslash, or two bytes after a backslash. */
  datatype Piece = Raw(c: byte) | Escape(c: byte) | Pair(hi: byte, lo: byte)

  predicate PieceOk(p: Piece) {
    match p
    case Raw(c) => c != '"' && c != '\\'
    case Escape(c) => c == '"' || c == '\\'
    case Pair(hi, _) => hi != '"' && hi != '\\'
  }

  function Written(p: Piece): bytes {
    match p
    case Raw(c) => [c]
    case Escape(c) => ['\\', c]
    case Pair(hi, lo) => ['\\', hi, lo]
  }

  /** A hexadecimal digit's place among the digits; any other byte counts as zero. */
  function Nibble(c: byte): (n: nat)
    ensures n < 16
  {
    if IsDigitIn(c, 16) then DigitOf(c) else 0
  }

  function Meant(p: Piece): byte {
    match p
    case Raw(c) => c
    case Escape(c) => c
    case Pair(hi, lo) => (Nibble(hi) * 16 + Nibble(lo)) as char
  }

  function Spelled(ps: seq<Piece>): bytes {
    if ps == [] then [] else Written(ps[0]) + Spelled(ps[1..])
  }

  function Means(ps: seq<Piece>): bytes {
    if ps == [] then [] else [Meant(ps[0])] + Means(ps[1..])
  }

  predicate PiecesOk(ps: seq<Piece>) {
    forall i :: 0 <= i < |ps| ==> PieceOk(ps[i])
  }

  lemma NibbleIs(c: byte)
    ensures HexNibble(c) == Nibble(c)
  {
  }

  lemma PairIs(hi: byte, lo: byte)
    ensures HexByte(hi, lo) == Meant(Pair(hi, lo))
  {
    hide HexNibble, Nibble;
    NibbleIs(hi);
    NibbleIs(lo);
  }

  lemma PieceRead(p: Piece, next: bytes)
    requires PieceOk(p) && next != [] && Terminated(next)
    ensures var at := Written(p) + next; Terminated(at) && ReadQuoted(at) == Prefixed(Meant(p), ReadQuoted(next))
  {
    hide ReadQuoted, Meant, HexByte, Prefixed;
    var at := Written(p) + next;
    assert at[|at| - 1] == next[|next| - 1];
    match p {
      case Raw(c) =>
        PlainStep(at);
        assert at[1..] == next && Meant(p) == c by {
          RawIs(c);
        }
      case Escape(c) =>
        EscapeStep(at);
        assert at[2..] == next && Meant(p) == c by {
          RawIs(c);
        }
      case Pair(hi, lo) =>
        EscapeStep(at);
        PairIs(hi, lo);
        assert at[3..] == next;
    }
  }

  lemma RawIs(c: byte)
    ensures Meant(Raw(c)) == c == Meant(Escape(c))
  {
  }

  /** Text in quotes is what its pieces mean, and ends at its closing quote. */
  lemma {:induction false} QuotedMeans(ps: seq<Piece>, rest: bytes)
    requires PiecesOk(ps) && Terminated("\"" + rest)
    ensures var at := Spelled(ps) + ("\"" + rest); Terminated(at) && ReadQuoted(at) == QuotedText(Means(ps), "\"" + rest)
  {
    hide ReadQuoted, Written, Meant, PieceOk;
    var end := "\"" + rest;
    if ps == [] {
      assert Spelled(ps) + end == end && end[0] == '"';
      QuotedEnd(end);
    } else {
      var next := Spelled(ps[1..]) + end;
      QuotedMeans(ps[1..], rest);
      assert Spelled(ps) + end == Written(ps[0]) + next && PieceOk(ps[0]);
      PieceRead(ps[0], next);
    }
  }

  predicate AreBlanks(gap: bytes) {
    forall i :: 0 <= i < |gap| ==> gap[i] in " \t\r\n"
  }

  /** Nothing, the final zero byte, or a byte that starts neither a name nor a quoted text nor a comment. */
  predicate StartsNoString(next: bytes) {
    next == [] || next[0] == NUL || IsOther(next[0])
  }

  predicate IsOther(c: byte) {
    IsLowOther(c) || IsHighOther(c)
  }

  predicate IsLowOther(c: byte) {
    c in "!$%&'()*+,-./"
  }

  predicate IsHighOther(c: byte) {
    c in ":<=>?@[\\]^`{|}~"
  }

  lemma LowOtherIs(c: byte)
    ensures IsLowOther(c) ==> !IsBlankByte(c) && !IsComment(c) && !IsNameByte(c) && c != '"'
  {
  }

  lemma HighOtherIs(c: byte)
    ensures IsHighOther(c) ==> !IsBlankByte(c) && !IsComment(c) && !IsNameByte(c) && c != '"'
  {
  }

  lemma NoStart(next: bytes)
    requires Terminated(next) && StartsNoString(next)
    ensures ScanPString(next) == NoString(next)
  {
    hide ScanPString, IsLowOther, IsHighOther;
    if next != [] {
      LowOtherIs(next[0]);
      HighOtherIs(next[0]);
    }
    PStringNone(next);
  }

  lemma {:induction false} BlanksPassed(gap: bytes, next: bytes)
    requires AreBlanks(gap) && Terminated(next) && next != []
    ensures Terminated(gap + next) && ScanPString(gap + next) == ScanPString(next)
  {
    hide ScanPString;
    var at := gap + next;
    if gap == [] {
      assert at == next;
    } else {
      assert at[1..] == gap[1..] + next && at[|at| - 1] == next[|next| - 1];
      BlanksPassed(gap[1..], next);
      PStringSkip(at);
    }
  }

  /** Where no string starts none is read, and what comes next stays to be read. */
  lemma NoStringRead(gap: bytes, next: bytes, token: bytes, ungot: bool)
    requires AreBlanks(gap) && Terminated(next) && next != [] && StartsNoString(next)
    ensures Terminated(gap + next)
    ensures ReadString(Src(gap + next, token, ungot)) == StringRead(false, "", Src(next, token, ungot))
  {
    hide ScanPString, Terminated, StartsNoString;
    BlanksPassed(gap, next);
    NoStart(next);
  }
}
