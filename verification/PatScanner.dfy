/** What the PAT tokenizer reads, as functions of the input that is left
    (internal/patparse/tokenizer.go). */
module PatScanner {
  import opened Bytes
  import opened Numbers

  const NUL: byte := '\0'

  /** Either nothing is left, or the last byte is the zero byte the parser appends. */
  predicate Terminated(rest: bytes) {
    rest == [] || rest[|rest| - 1] == NUL
  }

  // ---------- Byte classes ----------

  predicate IsDigit(b: byte) {
    '0' <= b <= '9'
  }

  predicate IsAlnum(b: byte) {
    'a' <= b <= 'z' || 'A' <= b <= 'Z' || IsDigit(b)
  }

  predicate IsWordByte(b: byte) {
    IsAlnum(b) || b == '_' || b == '.'
  }

  predicate IsNameByte(b: byte) {
    IsAlnum(b) || b == '_'
  }

  predicate IsBlankByte(b: byte) {
    b == ' ' || b == '\t' || b == '\r' || b == '\n'
  }

  predicate IsBracket(b: byte) {
    b == '{' || b == '}' || b == '[' || b == ']' || b == '(' || b == ')' || b == ','
  }

  predicate IsPunct(b: byte) {
    '!' <= b <= '~' && !IsNameByte(b) && b != '"' && !IsBracket(b)
  }

  function HexNibble(c: byte): (n: nat)
    ensures n < 16
  {
    if '0' <= c <= '9' then c as int - '0' as int
    else if 'a' <= c <= 'f' then c as int - 'a' as int + 10
    else if 'A' <= c <= 'F' then c as int - 'A' as int + 10
    else 0
  }

  function HexByte(hi: byte, lo: byte): byte {
    (HexNibble(hi) * 16 + HexNibble(lo)) as char
  }

  // ---------- Runs ----------

  /** The length of the longest prefix of word bytes. */
  function WordRun(rest: bytes): (n: nat)
    ensures n <= |rest| && forall i :: 0 <= i < n ==> IsWordByte(rest[i])
    ensures n < |rest| ==> !IsWordByte(rest[n])
  {
    if rest == [] || !IsWordByte(rest[0]) then 0 else 1 + WordRun(rest[1..])
  }

  function NameRun(rest: bytes): (n: nat)
    ensures n <= |rest| && forall i :: 0 <= i < n ==> IsNameByte(rest[i])
    ensures n < |rest| ==> !IsNameByte(rest[n])
  {
    if rest == [] || !IsNameByte(rest[0]) then 0 else 1 + NameRun(rest[1..])
  }

  function PunctRun(rest: bytes): (n: nat)
    ensures n <= |rest|
  {
    if rest == [] || !(IsPunct(rest[0]) || rest[0] == '_') then 0 else 1 + PunctRun(rest[1..])
  }

  /** The length of a comment: up to the end of the line. */
  function LineRun(rest: bytes): (n: nat)
    ensures n <= |rest|
  {
    if rest == [] || rest[0] == '\r' || rest[0] == '\n' then 0 else 1 + LineRun(rest[1..])
  }

  // ---------- Quoted text ----------

  datatype QuotedText = QuotedText(content: bytes, rest: bytes)

  function Prefixed(c: byte, q: QuotedText): QuotedText {
    QuotedText([c] + q.content, q.rest)
  }

  /** The text up to a closing quote or the end of input, escapes decoded.
      The appended zero byte makes the byte after a backslash always readable. */
  function ReadQuoted(rest: bytes): (q: QuotedText)
    requires Terminated(rest)
    ensures |q.rest| <= |rest| && Terminated(q.rest)
    ensures q.rest == [] || q.rest[0] == '"'
  {
    if rest == [] || rest[0] == '"' then QuotedText([], rest)
    else if rest[0] == '\\' then
      if rest[1] == '\\' || rest[1] == '"' then Prefixed(rest[1], ReadQuoted(rest[2..]))
      else if |rest| > 2 then Prefixed(HexByte(rest[1], rest[2]), ReadQuoted(rest[3..]))
      else ReadQuoted(rest[1..])
    else Prefixed(rest[0], ReadQuoted(rest[1..]))
  }

  // ---------- Tokens ----------

  datatype Scanned = NoToken(rest: bytes) | Token(text: bytes, rest: bytes)

  function ScanToken(rest: bytes): (r: Scanned)
    requires Terminated(rest)
    ensures |r.rest| <= |rest| && Terminated(r.rest)
    ensures r.Token? ==> |r.rest| < |rest|
    decreases |rest|
  {
    if rest == [] || rest[0] == NUL then NoToken(rest)
    else
      var b := rest[0];
      if IsBlankByte(b) then ScanToken(rest[1..])
      else if b == '#' || b == ';' then ScanToken(rest[1 + LineRun(rest[1..])..])
      else if IsWordByte(b) then Token(rest[..WordRun(rest)], rest[WordRun(rest)..])
      else if b == '-' && |rest| > 1 && IsDigit(rest[1]) then
        var n := 1 + WordRun(rest[1..]);
        Token(rest[..n], rest[n..])
      else if b == '"' then
        var q := ReadQuoted(rest[1..]);
        if q.rest != [] then Token("\"" + q.content + "\"", q.rest[1..]) else Token("\"" + q.content, q.rest)
      else if IsBracket(b) then Token([b], rest[1..])
      else if IsPunct(b) then Token(rest[..PunctRun(rest)], rest[PunctRun(rest)..])
      else ScanToken(rest[1..])
  }

  // One branch of the scanner at a time.

  lemma ScanSkip(at: bytes)
    requires Terminated(at) && at != [] && at[0] != NUL
    requires IsBlankByte(at[0]) || !(IsComment(at[0]) || IsWordByte(at[0]) || StartsNegative(at) || at[0] == '"'
                                     || IsBracket(at[0]) || IsPunct(at[0]))
    ensures ScanToken(at) == ScanToken(at[1..])
  {
  }

  predicate IsComment(b: byte) {
    b == '#' || b == ';'
  }

  predicate StartsNegative(at: bytes) {
    |at| > 1 && at[0] == '-' && IsDigit(at[1])
  }

  lemma ScanComment(at: bytes)
    requires Terminated(at) && at != [] && IsComment(at[0])
    ensures ScanToken(at) == ScanToken(at[LineRun(at)..])
    ensures ScanPString(at) == ScanPString(at[LineRun(at)..])
  {
    assert LineRun(at) == 1 + LineRun(at[1..]);
  }

  lemma ScanWord(at: bytes)
    requires Terminated(at) && at != [] && IsWordByte(at[0])
    ensures ScanToken(at) == Token(at[..WordRun(at)], at[WordRun(at)..]) && WordRun(at) > 0
  {
  }

  lemma ScanNegative(at: bytes)
    requires Terminated(at) && StartsNegative(at)
    ensures var n := 1 + WordRun(at[1..]); ScanToken(at) == Token(at[..n], at[n..])
  {
    hide WordRun, ReadQuoted, PunctRun, LineRun;
  }

  lemma ScanQuote(at: bytes)
    requires Terminated(at) && at != [] && at[0] == '"'
    ensures var q := ReadQuoted(at[1..]);
            && ScanToken(at) == (if q.rest != [] then Token("\"" + q.content + "\"", q.rest[1..])
                                 else Token("\"" + q.content, q.rest))
            && ScanPString(at) == Pascal(ToPascal(q.content), if q.rest != [] then q.rest[1..] else q.rest)
  {
    hide ReadQuoted;
  }

  lemma ScanBracket(at: bytes)
    requires Terminated(at) && at != [] && IsBracket(at[0])
    ensures ScanToken(at) == Token([at[0]], at[1..])
  {
  }

  lemma ScanPunct(at: bytes)
    requires Terminated(at) && at != [] && IsPunct(at[0]) && !IsComment(at[0]) && !IsWordByte(at[0]) && !StartsNegative(at)
    ensures ScanToken(at) == Token(at[..PunctRun(at)], at[PunctRun(at)..])
  {
  }

  /** What one turn of the quoted-text loop adds, and how far it moves. */
  function QuotedTurn(at: bytes): (bytes, nat)
    requires Terminated(at) && at != []
  {
    if at[0] != '\\' then ([at[0]], 1)
    else if at[1] == '\\' || at[1] == '"' then ([at[1]], 2)
    else if |at| > 2 then ([HexByte(at[1], at[2])], 3)
    else ([], 1)
  }

  lemma PlainStep(at: bytes)
    requires Terminated(at) && at != [] && at[0] != '"' && at[0] != '\\'
    ensures ReadQuoted(at) == Prefixed(at[0], ReadQuoted(at[1..]))
  {
  }

  lemma EscapeStep(at: bytes)
    requires Terminated(at) && at != [] && at[0] == '\\'
    ensures |at| > 1
    ensures at[1] == '\\' || at[1] == '"' ==> |at| > 2 && ReadQuoted(at) == Prefixed(at[1], ReadQuoted(at[2..]))
    ensures at[1] != '\\' && at[1] != '"' && |at| > 2 ==>
              Terminated(at[3..]) && ReadQuoted(at) == Prefixed(HexByte(at[1], at[2]), ReadQuoted(at[3..]))
    ensures |at| == 2 ==> ReadQuoted(at) == ReadQuoted(at[1..])
  {
    hide HexByte, Prefixed;
  }

  lemma QuotedStep(at: bytes)
    requires Terminated(at) && at != [] && at[0] != '"'
    ensures var (added, n) := QuotedTurn(at);
            n <= |at| && Terminated(at[n..]) && ReadQuoted(at) == QuotedText(added + ReadQuoted(at[n..]).content, ReadQuoted(at[n..]).rest)
  {
    hide HexByte, ReadQuoted;
    if at[0] != '\\' {
      PlainStep(at);
    } else {
      EscapeStep(at);
      if |at| == 2 {
        assert [] + ReadQuoted(at[1..]).content == ReadQuoted(at[1..]).content;
      }
    }
  }

  /** The loop's invariant over one turn. */
  lemma QuotedLoop(at: bytes, before: bytes, next: bytes, after: bytes)
    requires Terminated(at) && at != [] && at[0] != '"'
    requires QuotedTurn(at).1 <= |at| && next == at[QuotedTurn(at).1..] && after == before + QuotedTurn(at).0
    ensures Terminated(next) && ReadQuoted(at).rest == ReadQuoted(next).rest
    ensures before + ReadQuoted(at).content == after + ReadQuoted(next).content
  {
    hide ReadQuoted, QuotedTurn;
    QuotedStep(at);
    var (added, n) := QuotedTurn(at);
    assert before + (added + ReadQuoted(next).content) == after + ReadQuoted(next).content;
  }

  lemma QuotedEnd(at: bytes)
    requires Terminated(at) && (at == [] || at[0] == '"')
    ensures ReadQuoted(at) == QuotedText([], at)
  {
  }

  // ---------- Pascal strings ----------

  datatype PString = NoString(rest: bytes) | Pascal(text: bytes, rest: bytes)

  /** The length byte keeps only the low eight bits of the length. */
  function ToPascal(content: bytes): bytes {
    [(|content| % 256) as char] + content
  }

  function FromPascal(ps: bytes): bytes {
    if ps == [] then ""
    else
      var n := if ps[0] as int > |ps| - 1 then |ps| - 1 else ps[0] as int;
      ps[1..1 + n]
  }

  function ScanPString(rest: bytes): (r: PString)
    requires Terminated(rest)
    ensures |r.rest| <= |rest| && Terminated(r.rest)
    decreases |rest|
  {
    if rest == [] || rest[0] == NUL then NoString(rest)
    else
      var b := rest[0];
      if IsBlankByte(b) then ScanPString(rest[1..])
      else if b == '#' || b == ';' then ScanPString(rest[1 + LineRun(rest[1..])..])
      else if IsNameByte(b) then Pascal(ToPascal(rest[..NameRun(rest)]), rest[NameRun(rest)..])
      else if b == '"' then
        var q := ReadQuoted(rest[1..]);
        Pascal(ToPascal(q.content), if q.rest != [] then q.rest[1..] else q.rest)
      else NoString(rest)
  }

  lemma PStringSkip(at: bytes)
    requires Terminated(at) && at != [] && IsBlankByte(at[0])
    ensures ScanPString(at) == ScanPString(at[1..])
  {
  }

  lemma PStringName(at: bytes)
    requires Terminated(at) && at != [] && IsNameByte(at[0])
    ensures ScanPString(at) == Pascal(ToPascal(at[..NameRun(at)]), at[NameRun(at)..])
  {
  }

  lemma PStringNone(at: bytes)
    requires Terminated(at)
    requires at == [] || at[0] == NUL || !(IsBlankByte(at[0]) || IsComment(at[0]) || IsNameByte(at[0]) || at[0] == '"')
    ensures ScanPString(at) == NoString(at)
  {
  }

  lemma ScanEnd(at: bytes)
    requires Terminated(at) && (at == [] || at[0] == NUL)
    ensures ScanToken(at) == NoToken(at)
  {
  }

  /** A string cut to what its length byte can say. */
  function Cut(s: bytes): bytes {
    s[..|s| % 256]
  }

  lemma PascalRoundTrip(s: bytes)
    ensures FromPascal(ToPascal(s)) == Cut(s)
    ensures |s| <= 255 ==> FromPascal(ToPascal(s)) == s
  {
    var ps := ToPascal(s);
    assert ps[1..] == s;
    assert ps[1..1 + |s| % 256] == s[..|s| % 256];
  }

  // ---------- The tokenizer's state and its steps ----------

  /** The input left, the current token, and whether it was pushed back. */
  datatype Src = Src(rest: bytes, token: bytes, ungot: bool)

  predicate Ok(s: Src) {
    Terminated(s.rest)
  }

  /** Goes down with every token taken; a push-back gives one unit back. */
  function Fuel(s: Src): nat {
    2 * |s.rest| + if s.ungot then 1 else 0
  }

  datatype Got = Got(ok: bool, s: Src)

  function GetToken(s: Src): (g: Got)
    requires Ok(s)
    ensures Ok(g.s) && !g.s.ungot && |g.s.rest| <= |s.rest|
    ensures g.ok ==> Fuel(g.s) < Fuel(s)
  {
    if s.ungot then Got(true, s.(ungot := false))
    else
      match ScanToken(s.rest)
      case NoToken(rest) => Got(false, s.(rest := rest))
      case Token(text, rest) => Got(true, Src(rest, text, false))
  }

  function Unget(s: Src): Src {
    s.(ungot := true)
  }

  datatype IntRead = IntRead(v: int, s: Src)

  function IntOf(tok: bytes): int {
    if |tok| > 2 && tok[0] == '0' && (tok[1] == 'x' || tok[1] == 'X') then UintOrClamp(tok[2..], 16, 0xFFFF_FFFF)
    else Atoi(tok).v
  }

  function ReadInt(s: Src): (r: IntRead)
    requires Ok(s)
    ensures Ok(r.s) && Fuel(r.s) <= Fuel(s)
  {
    var g := GetToken(s);
    if !g.ok then IntRead(0, g.s) else IntRead(IntOf(g.s.token), g.s)
  }

  datatype StringRead = StringRead(ok: bool, v: bytes, s: Src)

  /** Reads a string after the current position; a pushed-back token stays pushed back. */
  function ReadString(s: Src): (r: StringRead)
    requires Ok(s)
    ensures Ok(r.s) && Fuel(r.s) <= Fuel(s)
  {
    match ScanPString(s.rest)
    case NoString(rest) => StringRead(false, "", s.(rest := rest))
    case Pascal(text, rest) => StringRead(true, FromPascal(text), s.(rest := rest))
  }

  predicate StartsNumber(tok: bytes) {
    tok != [] && (IsDigit(tok[0]) || tok[0] == '-')
  }

  datatype PointRead = PointRead(h: int16, v: int16, s: Src)

  function ReadPoint(s: Src): (r: PointRead)
    requires Ok(s)
    ensures Ok(r.s) && Fuel(r.s) <= Fuel(s)
  {
    var g := GetToken(s);
    if !g.ok || !StartsNumber(g.s.token) then PointRead(0, 0, g.s)
    else
      var h := ToInt16(Atoi(g.s.token).v);
      var g2 := GetToken(g.s);
      if !g2.ok then PointRead(h, 0, g2.s)
      else if g2.s.token != "," then PointRead(h, 0, Unget(g2.s))
      else
        var g3 := GetToken(g2.s);
        if StartsNumber(g3.s.token) then PointRead(h, ToInt16(Atoi(g3.s.token).v), g3.s)
        else PointRead(h, 0, Unget(g3.s))
  }
}
