/** The hand-written scanner of .pat text (internal/patparse/tokenizer.go): a position that only
    moves forward over data ending in a zero byte, and one token of push-back. */
module PatTokenizer {
  import opened Bytes
  import opened Numbers
  import opened PatScanner

  class Tokenizer {
    const data: bytes
    var pos: nat
    var token: bytes
    var ungot: bool

    predicate Valid()
      reads this
    {
      pos <= |data| && Terminated(data)
    }

    /** The abstract state: the input left instead of a position. */
    function View(): (s: Src)
      requires Valid()
      reads this
      ensures Ok(s)
    {
      Src(data[pos..], token, ungot)
    }

    constructor (pat: bytes)
      ensures Valid() && View() == Src(pat + [NUL], "", false)
    {
      data := pat + [NUL];
      pos, token, ungot := 0, "", false;
    }

    /** Skips a comment up to the end of its line. */
    method SkipLine()
      requires Valid() && pos < |data|
      modifies this`pos
      ensures Valid() && data[pos..] == data[old(pos)..][LineRun(data[old(pos)..])..]
    {
      ghost var start := data[pos..];
      while pos < |data| && data[pos] != '\r' && data[pos] != '\n'
        invariant old(pos) <= pos <= |data|
        invariant LineRun(start) == pos - old(pos) + LineRun(data[pos..])
      {
        assert data[pos..][1..] == data[pos + 1..];
        pos := pos + 1;
      }
      assert start[LineRun(start)..] == data[pos..];
    }

    /** Appends a run of word bytes to what is already in the buffer. */
    method TakeWord(buf: bytes) returns (word: bytes)
      requires Valid()
      modifies this`pos
      ensures Valid() && old(pos) <= pos
      ensures var tail := data[old(pos)..];
              word == buf + tail[..WordRun(tail)] && data[pos..] == tail[WordRun(tail)..]
    {
      word := buf;
      ghost var start := data[pos..];
      while pos < |data| && IsWordByte(data[pos])
        invariant old(pos) <= pos <= |data|
        invariant word == buf + data[old(pos)..pos]
        invariant WordRun(start) == pos - old(pos) + WordRun(data[pos..])
      {
        assert data[pos..][1..] == data[pos + 1..];
        word := word + [data[pos]];
        pos := pos + 1;
      }
      Slices(data, old(pos), pos);
    }

    method TakeName() returns (name: bytes)
      requires Valid()
      modifies this`pos
      ensures Valid() && pos == old(pos) + NameRun(data[old(pos)..])
      ensures name == data[old(pos)..pos]
    {
      name := [];
      ghost var start := data[pos..];
      while pos < |data| && IsNameByte(data[pos])
        invariant old(pos) <= pos <= |data|
        invariant name == data[old(pos)..pos]
        invariant NameRun(start) == pos - old(pos) + NameRun(data[pos..])
      {
        assert data[pos..][1..] == data[pos + 1..];
        name := name + [data[pos]];
        pos := pos + 1;
      }
    }

    method TakePunct() returns (word: bytes)
      requires Valid()
      modifies this`pos
      ensures Valid() && pos == old(pos) + PunctRun(data[old(pos)..])
      ensures word == data[old(pos)..pos]
    {
      word := [];
      ghost var start := data[pos..];
      while pos < |data| && (IsPunct(data[pos]) || data[pos] == '_')
        invariant old(pos) <= pos <= |data|
        invariant word == data[old(pos)..pos]
        invariant PunctRun(start) == pos - old(pos) + PunctRun(data[pos..])
      {
        assert data[pos..][1..] == data[pos + 1..];
        word := word + [data[pos]];
        pos := pos + 1;
      }
    }

    /** Reads quoted text after its opening quote, up to the closing quote or the end. Every index
        is in range because the data ends in a zero byte. */
    method TakeQuoted(buf: bytes) returns (text: bytes)
      requires Valid()
      modifies this`pos
      ensures Valid() && old(pos) <= pos
      ensures var q := ReadQuoted(data[old(pos)..]); text == buf + q.content && data[pos..] == q.rest
    {
      hide ReadQuoted;
      text := buf;
      ghost var q := ReadQuoted(data[pos..]);
      while pos < |data| && data[pos] != '"'
        invariant old(pos) <= pos <= |data|
        invariant text + ReadQuoted(data[pos..]).content == buf + q.content
        invariant ReadQuoted(data[pos..]).rest == q.rest
      {
        ghost var before, at := text, data[pos..];
        if data[pos] == '\\' {
          pos := pos + 1;
          var c := data[pos];
          if c == '\\' || c == '"' {
            text := text + [c];
            pos := pos + 1;
          } else if pos + 1 < |data| {
            text := text + [HexByte(c, data[pos + 1])];
            pos := pos + 2;
          }
        } else {
          text := text + [data[pos]];
          pos := pos + 1;
        }
        QuotedLoop(at, before, data[pos..], text);
      }
      QuotedEnd(data[pos..]);
      assert text + [] == text;
    }

    method GetToken() returns (ok: bool)
      requires Valid()
      modifies this
      ensures Valid() && Got(ok, View()) == PatScanner.GetToken(old(View()))
      ensures ok ==> Fuel(View()) < Fuel(old(View()))
    {
      hide ScanToken, LineRun;
      if ungot {
        ungot := false;
        return true;
      }
      while true
        invariant Valid() && !ungot && token == old(token)
        invariant ScanToken(data[pos..]) == ScanToken(data[old(pos)..])
        decreases |data| - pos
      {
        ghost var at := data[pos..];
        if pos >= |data| || data[pos] == NUL {
          ScanEnd(at);
          return false;
        }
        var b := data[pos];
        assert at[1..] == data[pos + 1..];
        if b == ' ' || b == '\t' || b == '\r' || b == '\n' {
          ScanSkip(at);
          pos := pos + 1;
        } else if b == '#' || b == ';' {
          ScanComment(at);
          CommentRun(at);
          SkipLine();
        } else if IsWordByte(b) || (b == '-' && pos + 1 < |data| && IsDigit(data[pos + 1])) {
          TakeWordToken();
          return true;
        } else if b == '"' {
          TakeQuotedToken();
          return true;
        } else if IsBracket(b) {
          ScanBracket(at);
          token := [b];
          pos := pos + 1;
          return true;
        } else if IsPunct(b) {
          TakePunctToken();
          return true;
        } else {
          ScanSkip(at);
          pos := pos + 1;
        }
      }
    }

    method TakeWordToken()
      requires Valid() && pos < |data|
      requires IsWordByte(data[pos]) || (data[pos] == '-' && pos + 1 < |data| && IsDigit(data[pos + 1]))
      modifies this`pos, this`token
      ensures Valid() && Token(token, data[pos..]) == ScanToken(data[old(pos)..])
    {
      hide ScanToken, WordRun;
      hide Terminated, IsWordByte;
      ghost var at := data[pos..];
      RestTerminated(data, pos);
      ghost var r := ScanToken(at);
      var buf: bytes := [];
      if data[pos] == '-' {
        NegativeToken(at);
        assert at[1..] == data[pos + 1..];
        buf := [data[pos]];
        pos := pos + 1;
      } else {
        WordToken(at);
      }
      assert WordTokenFrom(r, buf, data[pos..]);
      token := TakeWord(buf);
    }

    static lemma Slices(data: bytes, from: nat, to: nat)
      requires from <= to <= |data|
      ensures data[from..to] == data[from..][..to - from] && data[to..] == data[from..][to - from..]
    {
    }

    static lemma RestTerminated(data: bytes, pos: nat)
      requires Terminated(data) && pos <= |data|
      ensures Terminated(data[pos..])
    {
    }

    /** A token made of what is in the buffer and the word that follows. */
    static ghost predicate WordTokenFrom(r: Scanned, buf: bytes, tail: bytes) {
      r == Token(buf + tail[..WordRun(tail)], tail[WordRun(tail)..])
    }

    static lemma NegativeToken(at: bytes)
      requires Terminated(at) && at != [] && (IsWordByte(at[0]) || StartsNegative(at)) && at[0] == '-'
      ensures WordTokenFrom(ScanToken(at), [at[0]], at[1..])
    {
      hide ScanToken, WordRun;
      ScanNegative(at);
      var n := WordRun(at[1..]);
      assert at[..1 + n] == [at[0]] + at[1..][..n] && at[1 + n..] == at[1..][n..];
    }

    static lemma WordToken(at: bytes)
      requires Terminated(at) && at != [] && (IsWordByte(at[0]) || StartsNegative(at)) && at[0] != '-'
      ensures WordTokenFrom(ScanToken(at), [], at)
    {
      hide ScanToken, WordRun;
      ScanWord(at);
      assert [] + at[..WordRun(at)] == at[..WordRun(at)];
    }

    method TakeQuotedToken()
      requires Valid() && pos < |data| && data[pos] == '"'
      modifies this`pos, this`token
      ensures Valid() && Token(token, data[pos..]) == ScanToken(data[old(pos)..])
    {
      hide ScanToken, ReadQuoted;
      ghost var at := data[pos..];
      ScanQuote(at);
      assert at[1..] == data[pos + 1..];
      pos := pos + 1;
      var buf := TakeQuoted(['"']);
      if pos < |data| && data[pos] == '"' {
        buf := buf + ['"'];
        assert data[pos + 1..] == data[pos..][1..];
        pos := pos + 1;
      }
      token := buf;
    }

    method TakePunctToken()
      requires Valid() && pos < |data| && IsPunct(data[pos]) && !IsComment(data[pos]) && !IsWordByte(data[pos])
      requires !(data[pos] == '-' && pos + 1 < |data| && IsDigit(data[pos + 1]))
      modifies this`pos, this`token
      ensures Valid() && Token(token, data[pos..]) == ScanToken(data[old(pos)..])
    {
      hide ScanToken, PunctRun;
      ghost var at := data[pos..];
      ScanPunct(at);
      ghost var n := PunctRun(at);
      token := TakePunct();
      assert token == at[..n] && data[pos..] == at[n..];
    }

    static lemma CommentRun(at: bytes)
      requires at != [] && (at[0] == '#' || at[0] == ';')
      ensures LineRun(at) == 1 + LineRun(at[1..])
    {
    }

    method UngetToken()
      requires Valid()
      modifies this`ungot
      ensures Valid() && View() == Unget(old(View()))
    {
      ungot := true;
    }

    method TakeQuotedName() returns (ps: bytes)
      requires Valid() && pos < |data| && data[pos] == '"'
      modifies this`pos
      ensures Valid() && Pascal(ps, data[pos..]) == ScanPString(data[old(pos)..])
    {
      hide ScanPString, ScanToken, ReadQuoted;
      ghost var at := data[pos..];
      ScanQuote(at);
      assert at[1..] == data[pos + 1..];
      pos := pos + 1;
      var content := TakeQuoted([]);
      assert [] + content == content;
      if pos < |data| && data[pos] == '"' {
        assert data[pos + 1..] == data[pos..][1..];
        pos := pos + 1;
      }
      ps := ToPascal(content);
    }

    method GetPString() returns (ps: bytes, ok: bool)
      requires Valid()
      modifies this`pos
      ensures Valid() && token == old(token) && ungot == old(ungot)
      ensures (if ok then Pascal(ps, data[pos..]) else NoString(data[pos..])) == ScanPString(data[old(pos)..])
    {
      hide ScanPString, ReadQuoted, NameRun, LineRun;
      ps := [];
      while true
        invariant Valid()
        invariant ScanPString(data[pos..]) == ScanPString(data[old(pos)..])
        decreases |data| - pos
      {
        ghost var at := data[pos..];
        if pos >= |data| || data[pos] == NUL {
          PStringNone(at);
          return [], false;
        }
        var b := data[pos];
        assert at[0] == b && at[1..] == data[pos + 1..];
        if b == ' ' || b == '\t' || b == '\r' || b == '\n' {
          PStringSkip(at);
          pos := pos + 1;
        } else if b == '#' || b == ';' {
          ScanComment(at);
          CommentRun(at);
          SkipLine();
        } else if IsNameByte(b) {
          PStringName(at);
          var content := TakeName();
          assert content == at[..NameRun(at)] && data[pos..] == at[NameRun(at)..];
          return ToPascal(content), true;
        } else if b == '"' {
          ps := TakeQuotedName();
          return ps, true;
        } else {
          PStringNone(at);
          return [], false;
        }
      }
    }

    /** getPString followed by pascalToString, as every caller in the parser uses it. */
    method ReadString() returns (ok: bool, v: bytes)
      requires Valid()
      modifies this`pos
      ensures Valid() && StringRead(ok, v, View()) == PatScanner.ReadString(old(View()))
    {
      var ps: bytes;
      ps, ok := GetPString();
      v := if ok then FromPascal(ps) else "";
    }

    method ParseInt() returns (v: int)
      requires Valid()
      modifies this
      ensures Valid() && IntRead(v, View()) == ReadInt(old(View()))
    {
      var ok := GetToken();
      if !ok {
        return 0;
      }
      var tok := token;
      if |tok| > 2 && tok[0] == '0' && (tok[1] == 'x' || tok[1] == 'X') {
        return UintOrClamp(tok[2..], 16, 0xFFFF_FFFF);
      }
      return Atoi(tok).v;
    }

    method ParseShort() returns (v: int16)
      requires Valid()
      modifies this
      ensures Valid() && v == ToInt16(ReadInt(old(View())).v) && View() == ReadInt(old(View())).s
    {
      var n := ParseInt();
      v := ToInt16(n);
    }

    method ParseLong() returns (v: int32)
      requires Valid()
      modifies this
      ensures Valid() && v == ToInt32(ReadInt(old(View())).v) && View() == ReadInt(old(View())).s
    {
      var n := ParseInt();
      v := ToInt32(n);
    }

    /** Reads "H , V" or a single coordinate. */
    method ParsePoint() returns (h: int16, v: int16)
      requires Valid()
      modifies this
      ensures Valid() && PointRead(h, v, View()) == ReadPoint(old(View()))
    {
      h, v := 0, 0;
      var ok := GetToken();
      if !ok {
        return;
      }
      var tok := token;
      if |tok| == 0 {
        return;
      }
      if IsDigit(tok[0]) || tok[0] == '-' {
        h := ToInt16(Atoi(tok).v);
        ok := GetToken();
        if ok {
          if token == "," {
            ok := GetToken();
          } else {
            UngetToken();
            return h, 0;
          }
          var tok2 := token;
          if |tok2| > 0 && (IsDigit(tok2[0]) || tok2[0] == '-') {
            v := ToInt16(Atoi(tok2).v);
          } else {
            UngetToken();
          }
        }
      }
    }
  }
}
