/** Every escape the decoder of double-quoted strings understands, told piece by piece, and what it refuses
    (parsePalaceQuoted of internal/pserverprefs/parse_form.go). */
module PalaceEscapes {
  import opened Wrappers
  import opened Bytes
  import opened PalaceString
  import Numbers
  import opened NumberLaws

  /** A byte as it stands, a byte after a backslash, or two hexadecimal digits after a backslash. */
  datatype Piece = Raw(c: byte) | Escape(c: byte) | Pair(hi: byte, lo: byte)

  predicate PieceOk(p: Piece) {
    match p
    case Raw(c) => c != '"' && c != '\\'
    case Escape(_) => true
    case Pair(hi, lo) => IsDigitIn(hi, 16) && IsDigitIn(lo, 16)
  }

  function Written(p: Piece): (r: bytes)
    ensures r != []
  {
    match p
    case Raw(c) => [c]
    case Escape(c) => ['\\', c]
    case Pair(hi, lo) => ['\\', hi, lo]
  }

  function Meant(p: Piece): byte {
    match p
    case Raw(c) => c
    case Escape(c) => if c == 'n' then '\n' else if c == 'r' then '\r' else if c == 't' then '\t' else c
    case Pair(hi, lo) => (DigitOf(hi) * 16 + DigitOf(lo)) as char
  }

  function Spelled(ps: seq<Piece>): bytes {
    if ps == [] then [] else Written(ps[0]) + Spelled(ps[1..])
  }

  function Means(ps: seq<Piece>): (r: bytes)
    ensures |r| == |ps|
  {
    if ps == [] then [] else [Meant(ps[0])] + Means(ps[1..])
  }

  /** A piece reads as itself in front of a byte: an escaped digit must not be followed by another. */
  predicate Apart(p: Piece, next: bytes) {
    PieceOk(p) && (p.Escape? && IsDigitIn(p.c, 16) ==> next == [] || !IsDigitIn(next[0], 16))
  }

  predicate PiecesOk(ps: seq<Piece>, next: bytes) {
    ps == [] || (Apart(ps[0], Spelled(ps[1..]) + next) && PiecesOk(ps[1..], next))
  }

  lemma HexDigitIs(c: byte)
    ensures IsDigitIn(c, 16) <==> IsHex(c)
    ensures IsDigitIn(c, 16) ==> c !in ['\\', '"', 'n', 'r', 't']
  {
  }

  lemma PairIs(hi: byte, lo: byte)
    requires IsHex(hi) && IsHex(lo)
    ensures HexByte(hi, lo) == (DigitOf(hi) * 16 + DigitOf(lo)) as char
  {
    HexNibbleIs(hi);
    HexNibbleIs(lo);
  }

  lemma HexNibbleIs(c: byte)
    requires IsHex(c)
    ensures Numbers.DigitValue(c) == DigitOf(c)
  {
  }

  /** One piece in front of any text. */
  lemma PieceDecoded(p: Piece, next: bytes)
    requires Apart(p, next)
    ensures DecodeBody(Written(p) + next) == Prepend([Meant(p)], DecodeBody(next))
  {
    hide IsDigitIn, HexByte, DigitOf, Prepend;
    var t := Written(p) + next;
    match p
    case Raw(c) => assert t[1..] == next;
    case Escape(c) =>
      HexDigitIs(c);
      assert t[2..] == next;
      assert next != [] ==> t[2] == next[0];
      if next != [] {
        HexDigitIs(next[0]);
      }
    case Pair(hi, lo) =>
      HexDigitIs(hi);
      HexDigitIs(lo);
      PairIs(hi, lo);
      assert t[3..] == next;
  }

  lemma {:induction false} PiecesDecoded(ps: seq<Piece>, next: bytes)
    requires PiecesOk(ps, next)
    ensures DecodeBody(Spelled(ps) + next) == Prepend(Means(ps), DecodeBody(next))
  {
    hide DecodeBody, Written, Meant, Apart;
    if ps == [] {
      assert Spelled(ps) + next == next;
      PrependNothing(DecodeBody(next));
    } else {
      var rest := Spelled(ps[1..]) + next;
      PiecesDecoded(ps[1..], next);
      PieceDecoded(ps[0], rest);
      assert Spelled(ps) + next == Written(ps[0]) + rest;
      if DecodeBody(next).Some? {
        var t := DecodeBody(next).value;
        assert [Meant(ps[0])] + (Means(ps[1..]) + t) == Means(ps) + t;
      }
    }
  }

  /** A string in quotes decodes to what its pieces mean; what follows the closing quote does not matter. */
  lemma QuotedDecoded(ps: seq<Piece>, rest: bytes)
    requires PiecesOk(ps, "\"" + rest)
    ensures Decoded("\"" + Spelled(ps) + "\"" + rest) == Some(Means(ps))
  {
    hide PiecesOk, Spelled;
    var next := "\"" + rest;
    PiecesDecoded(ps, next);
    var t := "\"" + Spelled(ps) + "\"" + rest;
    assert t[1..] == Spelled(ps) + next;
    assert Means(ps) + [] == Means(ps);
  }

  /** Without a closing quote, or with nothing but a backslash after the last piece, it is refused. */
  lemma UnclosedRefused(ps: seq<Piece>, end: bytes)
    requires (end == [] || end == "\\") && PiecesOk(ps, end)
    ensures Decoded("\"" + Spelled(ps) + end) == None
  {
    hide PiecesOk, Spelled;
    PiecesDecoded(ps, end);
    var t := "\"" + Spelled(ps) + end;
    assert t[1..] == Spelled(ps) + end;
    assert end != [] ==> end[1..] == [];
  }

  /** A text that does not start with a quote is refused. */
  lemma UnquotedRefused(s: bytes)
    requires s == "" || s[0] != '"'
    ensures Decoded(s) == None
  {
  }

  /** Every text after an opening quote is pieces up to a closing quote, or pieces up to its end. */
  lemma {:induction false} SomePieces(s: bytes) returns (ps: seq<Piece>, end: bytes)
    ensures s == Spelled(ps) + end && PiecesOk(ps, end)
    ensures end == [] || end == "\\" || end[0] == '"'
    decreases |s|
  {
    hide IsDigitIn;
    if s == [] || s[0] == '"' || s == "\\" {
      ps, end := [], s;
    } else {
      var p := if s[0] != '\\' then Raw(s[0])
               else if |s| >= 3 && IsDigitIn(s[1], 16) && IsDigitIn(s[2], 16) then Pair(s[1], s[2])
               else Escape(s[1]);
      var n := |Written(p)|;
      assert s[..n] == Written(p);
      assert |s| > n ==> s[n..][0] == s[n];
      ps, end := SomePieces(s[n..]);
      ps := [p] + ps;
      assert s == s[..n] + s[n..];
      assert Spelled(ps) + end == Written(p) + (Spelled(ps[1..]) + end);
    }
  }
}
