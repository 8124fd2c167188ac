/** Palace double-quoted strings: the quoting of internal/pserverprefs/merge.go and
    the decoder of internal/pserverprefs/parse_form.go. */
module PalaceString {
  import opened Wrappers
  import opened Bytes
  import opened Numbers

  predicate IsPlain(c: byte) {
    ' ' <= c <= '~' && c != '\\' && c != '"'
  }

  predicate IsHex(c: byte) {
    '0' <= c <= '9' || 'a' <= c <= 'f' || 'A' <= c <= 'F'
  }

  function HexPair(v: nat): (r: bytes)
    requires v < 256
  {
    [DigitChar(v / 16), DigitChar(v % 16)]
  }

  function EscapeByte(c: byte): (r: bytes)
    ensures r != []
  {
    if IsPlain(c) then [c]
    else if c == '\\' || c == '"' then ['\\', c]
    else "\\" + HexPair(c as int)
  }

  function Escaped(s: bytes): bytes {
    if s == [] then [] else EscapeByte(s[0]) + Escaped(s[1..])
  }

  function Quoted(s: bytes): (r: bytes)
    ensures |r| >= 2 && r[0] == '"' && r[|r| - 1] == '"'
  {
    "\"" + Escaped(s) + "\""
  }

  method PalaceQuoted(s: bytes) returns (w: bytes)
    ensures w == Quoted(s)
  {
    w := "\"";
    var i := 0;
    while i < |s|
      invariant 0 <= i <= |s|
      invariant w + Escaped(s[i..]) == "\"" + Escaped(s)
    {
      var c := s[i];
      ghost var before := w;
      if ' ' <= c <= '~' && c != '\\' && c != '"' {
        w := w + [c];
      } else {
        match c {
          case '\\' => w := w + ['\\'] + [c];
          case '"' => w := w + ['\\'] + [c];
          case _ => w := w + "\\" + HexPair(c as int);
        }
      }
      assert w == before + EscapeByte(c);
      EscapedStep(s, i, before, w);
      i := i + 1;
    }
    assert s[i..] == [] && w + [] == w;
    w := w + "\"";
  }

  lemma EscapedStep(s: bytes, i: nat, before: bytes, after: bytes)
    requires i < |s| && after == before + EscapeByte(s[i])
    ensures before + Escaped(s[i..]) == after + Escaped(s[i + 1..])
  {
    assert s[i..][1..] == s[i + 1..];
  }

  // ---------- Decoding ----------

  function HexByte(hi: byte, lo: byte): byte
    requires IsHex(hi) && IsHex(lo)
  {
    (DigitValue(hi) * 16 + DigitValue(lo)) as char
  }

  function Prepend(w: bytes, rest: Option<bytes>): Option<bytes> {
    match rest
    case None => None
    case Some(t) => Some(w + t)
  }

  /** The text up to the closing quote, decoded; None when no closing quote is found. */
  function DecodeBody(s: bytes): Option<bytes> {
    if s == [] then None
    else if s[0] == '"' then Some([])
    else if s[0] == '\\' && |s| >= 2 then
      if s[1] == '\\' || s[1] == '"' then Prepend([s[1]], DecodeBody(s[2..]))
      else if s[1] == 'n' then Prepend("\n", DecodeBody(s[2..]))
      else if s[1] == 'r' then Prepend("\r", DecodeBody(s[2..]))
      else if s[1] == 't' then Prepend("\t", DecodeBody(s[2..]))
      else if |s| >= 3 && IsHex(s[1]) && IsHex(s[2]) then
        Prepend([HexByte(s[1], s[2])], DecodeBody(s[3..]))
      else Prepend([s[1]], DecodeBody(s[2..]))
    else Prepend([s[0]], DecodeBody(s[1..]))
  }

  function Decoded(s: bytes): Option<bytes> {
    if s == [] || s[0] != '"' then None else DecodeBody(s[1..])
  }

  method ParsePalaceQuoted(s: bytes) returns (r: Option<bytes>)
    ensures r == Decoded(s)
  {
    if |s| == 0 || s[0] != '"' {
      return None;
    }
    var b: bytes := [];
    var i := 1;
    PrependNothing(DecodeBody(s[1..]));
    while i < |s|
      invariant 1 <= i <= |s|
      invariant DecodeBody(s[1..]) == Prepend(b, DecodeBody(s[i..]))
    {
      var c := s[i];
      ghost var before, at := b, i;
      if c == '"' {
        assert b + [] == b;
        return Some(b);
      }
      if c == '\\' && i + 1 < |s| {
        i := i + 1;
        match s[i] {
          case '\\' => b := b + [s[i]];
          case '"' => b := b + [s[i]];
          case 'n' => b := b + "\n";
          case 'r' => b := b + "\r";
          case 't' => b := b + "\t";
          case _ =>
            if i + 1 < |s| && IsHex(s[i]) && IsHex(s[i + 1]) {
              b := b + [HexByte(s[i], s[i + 1])];
              i := i + 1;
            } else {
              b := b + [s[i]];
            }
        }
        i := i + 1;
        DecodeStep(s, at, before, b, i);
        continue;
      }
      b := b + [c];
      i := i + 1;
      DecodeStep(s, at, before, b, i);
    }
    assert s[i..] == [];
    return None;
  }

  lemma PrependNothing(o: Option<bytes>)
    ensures Prepend([], o) == o
  {
    if o.Some? {
      assert [] + o.value == o.value;
    }
  }

  /** One turn of the decoding loop, on the remaining text. */
  lemma DecodeStep(s: bytes, at: nat, before: bytes, after: bytes, next: nat)
    requires at < next <= |s|
    requires before <= after
    requires DecodeBody(s[at..]) == Prepend(after[|before|..], DecodeBody(s[at..][next - at..]))
    ensures Prepend(before, DecodeBody(s[at..])) == Prepend(after, DecodeBody(s[next..]))
  {
    assert s[at..][next - at..] == s[next..];
    var rest := DecodeBody(s[next..]);
    if rest.Some? {
      assert before + (after[|before|..] + rest.value) == after + rest.value;
    }
  }

  // ---------- Laws ----------

  lemma HexPairRoundTrip(c: byte)
    ensures var p := HexPair(c as int); IsHex(p[0]) && IsHex(p[1]) && HexByte(p[0], p[1]) == c
    ensures var p := HexPair(c as int); p[0] !in ['\\', '"', 'n', 'r', 't']
  {
    DigitRoundTrip(c as int / 16);
    DigitRoundTrip(c as int % 16);
  }

  lemma {:induction false} DecodeEscaped(s: bytes, rest: bytes)
    ensures DecodeBody(Escaped(s) + "\"" + rest) == Some(s)
  {
    var t := Escaped(s) + "\"" + rest;
    if s == [] {
      assert t == "\"" + rest;
    } else {
      var e := EscapeByte(s[0]);
      var tail := Escaped(s[1..]) + "\"" + rest;
      assert t == e + tail;
      assert t[|e|..] == tail;
      HexPairRoundTrip(s[0]);
      DecodeEscaped(s[1..], rest);
      assert [s[0]] + s[1..] == s;
    }
  }

  /** Decoding undoes quoting for every byte string, whatever follows the closing quote. */
  lemma QuotedRoundTrip(s: bytes, rest: bytes)
    ensures Decoded(Quoted(s) + rest) == Some(s)
  {
    DecodeEscaped(s, rest);
    assert (Quoted(s) + rest)[1..] == Escaped(s) + "\"" + rest;
  }

  /** Text in which a quote only ever follows a backslash. */
  predicate BareQuoteFree(t: bytes) {
    t == [] || (if t[0] == '\\' then |t| >= 2 && BareQuoteFree(t[2..]) else t[0] != '"' && BareQuoteFree(t[1..]))
  }

  /** Quoted text is printable ASCII and its body has no bare quote. */
  lemma {:induction false} EscapedIsPrintable(s: bytes)
    ensures forall i :: 0 <= i < |Escaped(s)| ==> ' ' <= Escaped(s)[i] <= '~'
    ensures BareQuoteFree(Escaped(s))
  {
    if s != [] {
      EscapedIsPrintable(s[1..]);
      var e := EscapeByte(s[0]);
      var t := Escaped(s);
      assert t[|e|..] == Escaped(s[1..]);
      HexPairRoundTrip(s[0]);
      if |e| == 3 {
        assert t[2..][1..] == t[3..];
      }
    }
  }

  lemma QuotedIsPrintable(s: bytes)
    ensures forall i :: 0 <= i < |Quoted(s)| ==> ' ' <= Quoted(s)[i] <= '~'
  {
    EscapedIsPrintable(s);
  }

  lemma QuotedIsTrimmed(s: bytes)
    ensures Trimmed(Quoted(s)) && Quoted(s) != [] && NoNewline(Quoted(s)) && '\r' !in Quoted(s)
  {
    QuotedIsPrintable(s);
  }
}
