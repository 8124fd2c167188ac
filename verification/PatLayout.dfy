/** Written .pat text as placed atoms, and what the scanner reads off it. Atoms stand in any layout: blanks,
    line ends and comments may come before each of them, and need not where two atoms keep apart by themselves. */
module PatLayout {
  import opened Bytes
  import opened Numbers
  import opened PalaceString
  import opened PatScanner

  // ---------- Atoms ----------

  /** A bare word, a decimal number, a string quoted as the prefs renderer quotes it, any other run of word
      bytes, a comma, another bracket, or a run of punctuation. */
  datatype Atom =
    | Bare(text: bytes)
    | Number(n: int64)
    | Str(s: bytes)
    | Plain(text: bytes)
    | Comma
    | Bracket(b: byte)
    | Punct(text: bytes)

  predicate AtomOk(a: Atom) {
    match a
    case Bare(text) => text != [] && !IsDigit(text[0]) && forall i :: 0 <= i < |text| ==> IsWordByte(text[i])
    case Plain(text) => text != [] && forall i :: 0 <= i < |text| ==> IsWordByte(text[i])
    case Bracket(b) => IsBracket(b) && b != ','
    case Punct(text) => IsPunctText(text)
    case _ => true
  }

  /** A comment, a word or a negative number would start differently. */
  predicate IsPunctText(text: bytes) {
    && text != [] && text[0] != '_' && text[0] != '.' && !IsComment(text[0])
    && forall i :: 0 <= i < |text| ==> IsPunctByte(text[i])
  }

  predicate IsPunctByte(c: byte) {
    IsPunct(c) || c == '_'
  }

  function Written(a: Atom): (r: bytes)
    ensures AtomOk(a) ==> r != []
  {
    match a
    case Number(n) => Dec(n)
    case Str(s) => Quoted(s)
    case Comma => ","
    case Bracket(b) => [b]
    case _ => a.text
  }

  /** The token the scanner makes of an atom. */
  function TokenOf(a: Atom): bytes {
    match a
    case Number(n) => Dec(n)
    case Str(s) => "\"" + s + "\""
    case Comma => ","
    case Bracket(b) => [b]
    case _ => a.text
  }

  /** Whether a byte right after an atom leaves the atom as it is. */
  predicate Follows(a: Atom, c: byte) {
    match a
    case Bare(_) => !IsWordByte(c)
    case Number(_) => !IsWordByte(c)
    case Plain(_) => !IsWordByte(c)
    case Punct(text) => !IsPunctByte(c) && !(text == "-" && IsDigit(c))
    case _ => true
  }

  // ---------- Gaps ----------

  /** A comment and the line end that closes it. */
  predicate IsCommentLine(s: bytes) {
    && |s| >= 2 && IsComment(s[0]) && (s[|s| - 1] == '\r' || s[|s| - 1] == '\n')
    && forall i :: 0 <= i < |s| - 1 ==> s[i] != '\r' && s[i] != '\n'
  }

  /** What may stand before an atom: blanks and comment lines. */
  datatype Gap = Blank(c: byte) | CommentLine(text: bytes)

  predicate GapOk(g: Gap) {
    match g
    case Blank(c) => IsBlankByte(c)
    case CommentLine(text) => IsCommentLine(text)
  }

  function GapText(gs: seq<Gap>): bytes {
    if gs == [] then []
    else (match gs[0] case Blank(c) => [c] case CommentLine(text) => text) + GapText(gs[1..])
  }

  predicate GapsOk(gs: seq<Gap>) {
    forall i :: 0 <= i < |gs| ==> GapOk(gs[i])
  }

  datatype Placed = Placed(gap: seq<Gap>, atom: Atom)

  predicate PlacedOk(p: Placed) {
    GapsOk(p.gap) && AtomOk(p.atom)
  }

  function PlacedText(p: Placed): (r: bytes)
    ensures PlacedOk(p) ==> r != []
  {
    GapText(p.gap) + Written(p.atom)
  }

  predicate Apart(p: Placed, q: Placed) {
    PlacedOk(p) && PlacedOk(q) && Follows(p.atom, PlacedText(q)[0])
  }

  /** Every atom keeps apart from the one before it; what follows the last one cannot be punctuation. */
  predicate LayoutOk(ps: seq<Placed>) {
    && (forall i :: 0 <= i < |ps| ==> PlacedOk(ps[i]))
    && (forall i :: 0 < i < |ps| ==> Apart(ps[i - 1], ps[i]))
    && (ps != [] ==> !ps[|ps| - 1].atom.Punct?)
  }

  function Text(ps: seq<Placed>): bytes {
    if ps == [] then [] else PlacedText(ps[0]) + Text(ps[1..])
  }

  /** The rest of a file, which must not continue the word before it. */
  predicate IsTail(tail: bytes) {
    Terminated(tail) && tail != [] && !IsWordByte(tail[0])
  }

  // ---------- Reading past gaps ----------

  lemma {:induction false} LineRunTo(s: bytes, rest: bytes)
    requires forall i :: 0 <= i < |s| ==> s[i] != '\r' && s[i] != '\n'
    requires rest != [] && (rest[0] == '\r' || rest[0] == '\n')
    ensures LineRun(s + rest) == |s|
  {
    if s == [] {
      assert s + rest == rest;
    } else {
      assert (s + rest)[1..] == s[1..] + rest;
      LineRunTo(s[1..], rest);
    }
  }

  lemma BlankSkipped(c: byte, rest: bytes)
    requires IsBlankByte(c) && rest != [] && Terminated(rest)
    ensures var t := [c] + rest;
            Terminated(t) && ScanToken(t) == ScanToken(rest) && ScanPString(t) == ScanPString(rest)
  {
    hide ScanToken, ScanPString;
    var t := [c] + rest;
    assert t[1..] == rest;
    ScanSkip(t);
    PStringSkip(t);
  }

  lemma CommentSkipped(text: bytes, rest: bytes)
    requires IsCommentLine(text) && rest != [] && Terminated(rest)
    ensures var t := text + rest;
            Terminated(t) && ScanToken(t) == ScanToken(rest) && ScanPString(t) == ScanPString(rest)
  {
    hide ScanToken, ScanPString, LineRun;
    var body, end := text[..|text| - 1], text[|text| - 1];
    var line := [end] + rest;
    var t := text + rest;
    assert t == body + line;
    LineRunTo(body, line);
    ScanComment(t);
    assert t[|body|..] == line;
    BlankSkipped(end, rest);
  }

  lemma GapItemSkipped(g: Gap, rest: bytes)
    requires GapOk(g) && rest != [] && Terminated(rest)
    ensures var t := GapText([g]) + rest;
            Terminated(t) && ScanToken(t) == ScanToken(rest) && ScanPString(t) == ScanPString(rest)
  {
    hide ScanToken, ScanPString, Terminated, IsCommentLine, IsBlankByte;
    assert [g][1..] == [];
    match g
    case Blank(c) =>
      assert GapText([g]) == [c];
      BlankSkipped(c, rest);
    case CommentLine(text) =>
      assert GapText([g]) == text;
      CommentSkipped(text, rest);
  }

  lemma NoGap(rest: bytes)
    ensures GapText([]) + rest == rest
  {
  }

  lemma GapSplit(gs: seq<Gap>, rest: bytes)
    requires gs != []
    ensures GapText(gs) + rest == GapText([gs[0]]) + (GapText(gs[1..]) + rest)
  {
    assert [gs[0]][1..] == [];
  }

  lemma {:induction false} GapSkipped(gs: seq<Gap>, rest: bytes)
    requires GapsOk(gs) && rest != [] && Terminated(rest)
    ensures var t := GapText(gs) + rest;
            Terminated(t) && ScanToken(t) == ScanToken(rest) && ScanPString(t) == ScanPString(rest)
  {
    hide ScanToken, ScanPString, GapText, GapOk, Terminated;
    if gs == [] {
      NoGap(rest);
    } else {
      GapSkipped(gs[1..], rest);
      GapItemSkipped(gs[0], GapText(gs[1..]) + rest);
      GapSplit(gs, rest);
    }
  }

  // ---------- Reading atoms ----------

  lemma {:induction false} WordRunTo(s: bytes, rest: bytes)
    requires forall i :: 0 <= i < |s| ==> IsWordByte(s[i])
    requires rest != [] && !IsWordByte(rest[0])
    ensures WordRun(s + rest) == |s|
  {
    if s == [] {
      assert s + rest == rest;
    } else {
      assert (s + rest)[1..] == s[1..] + rest;
      WordRunTo(s[1..], rest);
    }
  }

  lemma WordScanned(s: bytes, rest: bytes)
    requires s != [] && forall i :: 0 <= i < |s| ==> IsWordByte(s[i])
    requires Terminated(rest) && rest != [] && !IsWordByte(rest[0])
    ensures Terminated(s + rest) && ScanToken(s + rest) == Token(s, rest)
  {
    hide ScanToken, WordRun;
    WordRunTo(s, rest);
    ScanWord(s + rest);
    assert (s + rest)[|s|..] == rest;
  }

  lemma NegativeScanned(ds: bytes, rest: bytes)
    requires ds != [] && forall i :: 0 <= i < |ds| ==> IsDigit(ds[i])
    requires Terminated(rest) && rest != [] && !IsWordByte(rest[0])
    ensures var t := "-" + ds; Terminated(t + rest) && ScanToken(t + rest) == Token(t, rest)
  {
    hide ScanToken, WordRun;
    var t := "-" + ds + rest;
    assert t[1..] == ds + rest;
    WordRunTo(ds, rest);
    ScanNegative(t);
    assert t[..1 + |ds|] == "-" + ds && t[1 + |ds|..] == rest;
  }

  lemma NumberScanned(n: int64, rest: bytes)
    requires Terminated(rest) && rest != [] && !IsWordByte(rest[0])
    ensures Terminated(Dec(n) + rest) && ScanToken(Dec(n) + rest) == Token(Dec(n), rest)
  {
    hide ScanToken, Digits, Terminated;
    if n < 0 {
      NegativeScanned(Digits(0 - n, 10), rest);
    } else {
      WordScanned(Dec(n), rest);
    }
  }

  lemma {:induction false} PunctRunTo(s: bytes, rest: bytes)
    requires forall i :: 0 <= i < |s| ==> IsPunctByte(s[i])
    requires rest != [] && !IsPunctByte(rest[0])
    ensures PunctRun(s + rest) == |s|
  {
    if s == [] {
      assert s + rest == rest;
    } else {
      assert (s + rest)[1..] == s[1..] + rest;
      PunctRunTo(s[1..], rest);
    }
  }

  lemma PunctScanned(s: bytes, rest: bytes)
    requires IsPunctText(s) && Terminated(rest) && rest != [] && Follows(Punct(s), rest[0])
    ensures Terminated(s + rest) && ScanToken(s + rest) == Token(s, rest)
  {
    hide ScanToken, PunctRun;
    var t := s + rest;
    PunctRunTo(s, rest);
    assert |s| == 1 ==> s == [s[0]] && t[1] == rest[0];
    assert |s| > 1 ==> t[1] == s[1];
    ScanPunct(t);
    assert t[|s|..] == rest;
  }

  lemma HexPairRead(c: byte)
    ensures var p := HexPair(c as int); PatScanner.HexByte(p[0], p[1]) == c
  {
  }

  lemma HexPairSize(v: nat)
    requires v < 256
    ensures |HexPair(v)| == 2
  {
  }

  /** The tokenizer's decoding undoes the escaping of one byte. */
  lemma ByteRead(c: byte, rest: bytes)
    requires rest != [] && Terminated(rest)
    ensures var t := EscapeByte(c) + rest;
            Terminated(t) && ReadQuoted(t) == Prefixed(c, ReadQuoted(rest))
  {
    hide ReadQuoted, Prefixed, HexPair, PatScanner.HexByte;
    var e := EscapeByte(c);
    var t := e + rest;
    assert t[|e|..] == rest;
    HexPairSize(c as int);
    if IsPlain(c) {
      PlainStep(t);
    } else {
      EscapeStep(t);
      if c != '\\' && c != '"' {
        HexPairRead(c);
        HexPairRoundTrip(c);
        assert t[1] == HexPair(c as int)[0] && t[2] == HexPair(c as int)[1];
      }
    }
  }

  lemma {:induction false} EscapedRead(s: bytes, rest: bytes)
    requires rest != [] && Terminated(rest) && rest[0] == '"'
    ensures Terminated(Escaped(s) + rest) && ReadQuoted(Escaped(s) + rest) == QuotedText(s, rest)
  {
    hide ReadQuoted, EscapeByte;
    if s == [] {
      assert Escaped(s) + rest == rest;
      QuotedEnd(rest);
    } else {
      EscapedRead(s[1..], rest);
      var t := Escaped(s[1..]) + rest;
      ByteRead(s[0], t);
      assert Escaped(s) + rest == EscapeByte(s[0]) + t;
      assert [s[0]] + s[1..] == s;
    }
  }

  /** getToken on a quoted string gives its text between quotes; getPString gives the text cut to what
      its length byte can say. Both stop just past the closing quote. */
  lemma QuotedScanned(s: bytes, rest: bytes)
    requires rest != [] && Terminated(rest)
    ensures var t := Quoted(s) + rest;
            && Terminated(t) && ScanToken(t) == Token("\"" + s + "\"", rest)
            && ScanPString(t) == Pascal(ToPascal(s), rest) && FromPascal(ToPascal(s)) == Cut(s)
  {
    hide ReadQuoted, ScanToken, ScanPString, ToPascal, FromPascal;
    var t := Quoted(s) + rest;
    var close := "\"" + rest;
    EscapedRead(s, close);
    assert t[1..] == Escaped(s) + close;
    ScanQuote(t);
    assert close[1..] == rest;
    PascalRoundTrip(s);
  }

  // ---------- Parts of a text ----------

  /** What a text may ask for: an atom as it stands, a word in upper or lower case, or a name with or
      without quotes, or an integer in decimal or in hexadecimal. */
  datatype Part = Just(atom: Atom) | Caseless(text: bytes) | Label(s: bytes) | Integer(n: int64)

  function Num(n: int64): Part {
    Just(Number(n))
  }

  function Hex(prefix: bytes, n: nat): bytes {
    prefix + Digits(n, 16)
  }

  /** A name that needs no quotes. */
  predicate IsNameText(s: bytes) {
    s != [] && forall i :: 0 <= i < |s| ==> IsNameByte(s[i])
  }

  predicate Writes(a: Atom, p: Part) {
    match p
    case Just(b) => a == b
    case Caseless(text) => a.Bare? && ToUpper(a.text) == ToUpper(text)
    case Label(s) => a == Str(s) || (a == Plain(s) && IsNameText(s))
    case Integer(n) => a == Number(n) || (0 <= n <= 0xFFFF_FFFF && (a == Plain(Hex("0x", n)) || a == Plain(Hex("0X", n))))
  }

  /** The first atoms of ps write the parts. */
  predicate Spells(ps: seq<Placed>, parts: seq<Part>) {
    |parts| <= |ps| && LayoutOk(ps) && forall i :: 0 <= i < |parts| ==> Writes(ps[i].atom, parts[i])
  }

  lemma SpellsBoth(ps: seq<Placed>, a: seq<Part>, b: seq<Part>)
    requires Spells(ps, a + b)
    ensures Spells(ps, a) && Spells(ps[|a|..], b)
  {
    hide Apart, PlacedOk, Writes;
    assert forall i :: 0 <= i < |a| ==> (a + b)[i] == a[i];
    assert forall i :: 0 <= i < |b| ==> (a + b)[|a| + i] == b[i];
  }

  // ---------- Reading placed atoms ----------

  /** The scanner in front of placed atoms and the tail of the file. */
  function At(ps: seq<Placed>, tail: bytes, token: bytes): (s: Src)
    requires IsTail(tail)
    ensures Ok(s) && s.token == token && !s.ungot
  {
    TextEnds(ps, tail);
    Src(Text(ps) + tail, token, false)
  }

  lemma TextEnds(ps: seq<Placed>, tail: bytes)
    requires IsTail(tail)
    ensures Text(ps) + tail != [] && Terminated(Text(ps) + tail)
  {
    hide Text;
  }

  /** What comes after the first atom leaves it as it is. */
  lemma NextFollows(ps: seq<Placed>, tail: bytes)
    requires LayoutOk(ps) && ps != [] && IsTail(tail)
    ensures Text(ps[1..]) + tail != [] && Follows(ps[0].atom, (Text(ps[1..]) + tail)[0])
  {
    hide GapText, Written, PlacedText, GapsOk, AtomOk;
    if |ps| > 1 {
      assert ps[1..][0] == ps[1] && Text(ps[1..])[0] == PlacedText(ps[1])[0];
    }
  }

  lemma AtomScanned(a: Atom, rest: bytes)
    requires AtomOk(a) && Terminated(rest) && rest != [] && Follows(a, rest[0])
    ensures Terminated(Written(a) + rest) && ScanToken(Written(a) + rest) == Token(TokenOf(a), rest)
  {
    hide ScanToken, Dec, Quoted;
    match a
    case Number(n) => NumberScanned(n, rest);
    case Str(s) => QuotedScanned(s, rest);
    case Punct(text) => PunctScanned(text, rest);
    case Comma => BracketScanned(',', rest);
    case Bracket(b) => BracketScanned(b, rest);
    case _ => WordScanned(a.text, rest);
  }

  lemma BracketScanned(b: byte, rest: bytes)
    requires IsBracket(b) && Terminated(rest) && rest != []
    ensures Terminated([b] + rest) && ScanToken([b] + rest) == Token([b], rest)
  {
    hide ScanToken;
    var t := [b] + rest;
    ScanBracket(t);
    assert t[1..] == rest;
  }

  /** The text in front of the scanner, split after the first atom. */
  lemma TextSplit(ps: seq<Placed>, tail: bytes)
    requires LayoutOk(ps) && ps != [] && IsTail(tail)
    ensures Text(ps) + tail == GapText(ps[0].gap) + (Written(ps[0].atom) + (Text(ps[1..]) + tail))
  {
    hide GapText, Written;
  }

  /** getToken takes the first atom. */
  lemma TakeAtom(ps: seq<Placed>, tail: bytes, token: bytes)
    requires LayoutOk(ps) && ps != [] && IsTail(tail)
    ensures GetToken(At(ps, tail, token)) == Got(true, At(ps[1..], tail, TokenOf(ps[0].atom)))
  {
    hide Text, GapText, Written, ScanToken, TokenOf, IsTail, Terminated, Follows, PlacedText;
    var rest := Text(ps[1..]) + tail;
    TextEnds(ps[1..], tail);
    TextSplit(ps, tail);
    NextFollows(ps, tail);
    AtomScanned(ps[0].atom, rest);
    GapSkipped(ps[0].gap, Written(ps[0].atom) + rest);
  }

  /** A pushed-back atom reads as if it had not been taken. */
  lemma PushedBack(ps: seq<Placed>, tail: bytes, token: bytes)
    requires LayoutOk(ps) && ps != [] && IsTail(tail)
    ensures GetToken(Unget(At(ps[1..], tail, TokenOf(ps[0].atom)))) == GetToken(At(ps, tail, token))
  {
    hide Text, ScanToken, TokenOf;
    TakeAtom(ps, tail, token);
  }

  lemma TakeNumber(ps: seq<Placed>, tail: bytes, token: bytes, n: int64)
    requires LayoutOk(ps) && ps != [] && Writes(ps[0].atom, Integer(n)) && IsTail(tail)
    ensures ReadInt(At(ps, tail, token)) == IntRead(n, At(ps[1..], tail, TokenOf(ps[0].atom)))
  {
    hide GetToken, Atoi, Dec, At, IntOf, Hex;
    TakeAtom(ps, tail, token);
    if ps[0].atom.Number? {
      NumberRead(n);
    } else {
      HexRead(n);
    }
  }

  /** parseInt reads a hexadecimal number with either prefix. */
  lemma HexRead(n: nat)
    requires n <= 0xFFFF_FFFF
    ensures IntOf(Hex("0x", n)) == n && IntOf(Hex("0X", n)) == n
  {
    hide Digits, ScanDigits;
    DigitsRoundTrip(n, 16, 0xFFFF_FFFF);
    assert Hex("0x", n)[2..] == Digits(n, 16) && Hex("0X", n)[2..] == Digits(n, 16);
  }

  lemma NumberRead(n: int64)
    ensures IntOf(Dec(n)) == n && Atoi(Dec(n)).v == n && StartsNumber(Dec(n)) && Dec(n) != ","
  {
    hide Atoi, Digits;
    DecRoundTrip(n);
  }

  /** getPString reads a name with or without quotes. */
  lemma TakeString(ps: seq<Placed>, tail: bytes, token: bytes, s: bytes)
    requires LayoutOk(ps) && ps != [] && Writes(ps[0].atom, Label(s)) && IsTail(tail)
    ensures ReadString(At(ps, tail, token)) == StringRead(true, Cut(s), At(ps[1..], tail, token))
  {
    hide Text, GapText, Quoted, ScanPString, ScanToken, IsTail, Terminated, ToPascal, FromPascal, Cut, PlacedText;
    var rest := Text(ps[1..]) + tail;
    TextEnds(ps[1..], tail);
    TextSplit(ps, tail);
    NextFollows(ps, tail);
    if ps[0].atom.Str? {
      QuotedScanned(s, rest);
    } else {
      NameScanned(s, rest);
    }
    GapSkipped(ps[0].gap, Written(ps[0].atom) + rest);
  }

  lemma {:induction false} NameRunTo(s: bytes, rest: bytes)
    requires forall i :: 0 <= i < |s| ==> IsNameByte(s[i])
    requires rest != [] && !IsNameByte(rest[0])
    ensures NameRun(s + rest) == |s|
  {
    if s == [] {
      assert s + rest == rest;
    } else {
      assert (s + rest)[1..] == s[1..] + rest;
      NameRunTo(s[1..], rest);
    }
  }

  lemma NameScanned(s: bytes, rest: bytes)
    requires IsNameText(s) && Terminated(rest) && rest != [] && !IsNameByte(rest[0])
    ensures Terminated(s + rest) && ScanPString(s + rest) == Pascal(ToPascal(s), rest) && FromPascal(ToPascal(s)) == Cut(s)
  {
    hide ScanPString, NameRun, ToPascal, FromPascal, Cut;
    NameRunTo(s, rest);
    PStringName(s + rest);
    assert (s + rest)[|s|..] == rest;
    PascalRoundTrip(s);
  }

  // ---------- Points ----------

  /** A point with one coordinate or two. */
  datatype Point = One(h: int64) | Two(h: int64, v: int64)

  function PointParts(p: Point): seq<Part> {
    match p
    case One(h) => [Num(h)]
    case Two(h, v) => [Num(h), Just(Comma), Num(v)]
  }

  /** parsePoint reads a written point and leaves the scanner where the next token is the atom after it. */
  lemma TakePoint(ps: seq<Placed>, tail: bytes, token: bytes, p: Point)
    requires Spells(ps, PointParts(p)) && IsTail(tail)
    requires |PointParts(p)| < |ps| && (p.One? ==> ps[1].atom != Comma)
    ensures var r := ReadPoint(At(ps, tail, token));
            && r.h == ToInt16(p.h) && r.v == (if p.Two? then ToInt16(p.v) else 0)
            && GetToken(r.s) == GetToken(At(ps[|PointParts(p)|..], tail, ""))
  {
    hide GetToken, Atoi, Dec, At, StartsNumber, ToInt16, Apart, AtomOk, GapsOk, IsTail, TokenOf;
    TokenOfNumber(p.h);
    TokenOfNumber(if p.Two? then p.v else 0);
    TakeAtom(ps, tail, token);
    NumberRead(p.h);
    assert Writes(ps[0].atom, PointParts(p)[0]);
    TakeAtom(ps[1..], tail, Dec(p.h));
    assert ps[1..][1..] == ps[2..];
    if p.One? {
      NotComma(ps[1].atom);
      PushedBack(ps[1..], tail, "");
    } else {
      assert Writes(ps[1].atom, PointParts(p)[1]) && Writes(ps[2].atom, PointParts(p)[2]);
      TokenOfComma();
      TakeAtom(ps[2..], tail, ",");
      NumberRead(p.v);
      assert ps[2..][1..] == ps[3..];
      TakeAtom(ps[3..], tail, Dec(p.v));
      TakeAtom(ps[3..], tail, "");
    }
  }

  lemma TokenOfNumber(n: int64)
    ensures TokenOf(Number(n)) == Dec(n)
  {
  }

  lemma TokenOfComma()
    ensures TokenOf(Comma) == ","
  {
  }

  /** parsePoint takes one token that is no number, and reads no point. */
  lemma TakeNoPoint(ps: seq<Placed>, tail: bytes, token: bytes)
    requires LayoutOk(ps) && ps != [] && (ps[0].atom.Bare? || ps[0].atom.Comma?) && IsTail(tail)
    ensures ReadPoint(At(ps, tail, token)).s == At(ps[1..], tail, TokenOf(ps[0].atom))
  {
    hide GetToken, Text, At;
    TakeAtom(ps, tail, token);
    NoNumber(ps[0].atom);
  }

  lemma NoNumber(a: Atom)
    requires AtomOk(a) && (a.Bare? || a.Comma?)
    ensures !StartsNumber(TokenOf(a))
  {
  }

  /** Only the comma atom makes a comma token. */
  lemma NotComma(a: Atom)
    requires AtomOk(a) && a != Comma
    ensures TokenOf(a) != ","
  {
    if a.Number? {
      NumberRead(a.n);
    } else {
      assert TokenOf(a)[0] != ',';
    }
  }
}
