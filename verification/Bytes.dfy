/** Go strings as byte strings, with the few `strings` functions the repository relies on.
    A byte is a character below 256, so that string literals denote byte strings. */
module Bytes {

  type byte = c: char | c as int < 256
  type bytes = seq<byte>

  // ---------- White space and letter case (ASCII) ----------

  predicate IsSpace(c: byte) {
    c == ' ' || '\t' <= c <= '\r'
  }

  predicate AllSpace(s: bytes) {
    forall i :: 0 <= i < |s| ==> IsSpace(s[i])
  }

  function TrimLeft(s: bytes): (r: bytes)
    ensures |r| <= |s|
    ensures r != [] ==> !IsSpace(r[0])
  {
    if s != [] && IsSpace(s[0]) then TrimLeft(s[1..]) else s
  }

  function TrimRight(s: bytes): (r: bytes)
    ensures |r| <= |s|
    ensures r != [] ==> !IsSpace(r[|r| - 1]) && r[0] == s[0]
    ensures s != [] && !IsSpace(s[0]) ==> r != []
  {
    if s != [] && IsSpace(s[|s| - 1]) then TrimRight(s[..|s| - 1]) else s
  }

  function Trim(s: bytes): (r: bytes)
    ensures |r| <= |s| && Trimmed(r)
  {
    TrimRight(TrimLeft(s))
  }

  predicate Trimmed(s: bytes) {
    s == [] || (!IsSpace(s[0]) && !IsSpace(s[|s| - 1]))
  }

  lemma TrimFixed(s: bytes)
    requires Trimmed(s)
    ensures Trim(s) == s
  {
  }

  lemma TrimTwice(s: bytes)
    ensures Trim(Trim(s)) == Trim(s)
  {
  }

  lemma {:induction false} TrimRightPad(s: bytes, pad: bytes)
    requires s == [] || !IsSpace(s[|s| - 1])
    requires AllSpace(pad)
    ensures TrimRight(s + pad) == s
    decreases |pad|
  {
    if pad == [] {
      assert s + pad == s;
    } else {
      assert (s + pad)[..|s + pad| - 1] == s + pad[..|pad| - 1];
      TrimRightPad(s, pad[..|pad| - 1]);
    }
  }

  lemma {:induction false} TrimLeftPad(pad: bytes, s: bytes)
    requires s == [] || !IsSpace(s[0])
    requires AllSpace(pad)
    ensures TrimLeft(pad + s) == s
  {
    if pad == [] {
      assert pad + s == s;
    } else {
      assert (pad + s)[1..] == pad[1..] + s;
      TrimLeftPad(pad[1..], s);
    }
  }

  /** What trimming removes is white space on both sides, and nothing else. */
  lemma TrimParts(s: bytes) returns (left: bytes, right: bytes)
    ensures s == left + Trim(s) + right
    ensures AllSpace(left) && AllSpace(right)
  {
    left := TrimLeftParts(s);
    right := TrimRightParts(TrimLeft(s));
  }

  lemma {:induction false} TrimLeftParts(s: bytes) returns (left: bytes)
    ensures s == left + TrimLeft(s) && AllSpace(left)
  {
    if s != [] && IsSpace(s[0]) {
      left := TrimLeftParts(s[1..]);
      left := [s[0]] + left;
    } else {
      left := [];
    }
  }

  lemma {:induction false} TrimRightParts(s: bytes) returns (right: bytes)
    ensures s == TrimRight(s) + right && AllSpace(right)
  {
    if s != [] && IsSpace(s[|s| - 1]) {
      right := TrimRightParts(s[..|s| - 1]);
      right := right + [s[|s| - 1]];
    } else {
      right := [];
    }
  }

  /** A trimmed text inside white space is found again. */
  lemma TrimPadded(left: bytes, core: bytes, right: bytes)
    requires AllSpace(left) && Trimmed(core) && AllSpace(right)
    ensures Trim(left + core + right) == core
  {
    if core == [] {
      assert left + core + right == (left + right) + [];
      TrimLeftPad(left + right, []);
    } else {
      assert left + core + right == left + (core + right);
      TrimLeftPad(left, core + right);
      TrimRightPad(core, right);
    }
  }

  /** Nothing is left of white space alone, and of nothing else. */
  lemma BlankTrim(s: bytes)
    ensures Trim(s) == "" <==> AllSpace(s)
  {
    hide Trim;
    var left, right := TrimParts(s);
    assert Trim(s) == "" ==> s == left + right;
    if AllSpace(s) {
      assert s + "" + "" == s;
      TrimPadded(s, "", "");
    }
  }

  /** Trimming ignores white space added at the end. */
  lemma TrimAppendSpace(s: bytes, pad: bytes)
    requires AllSpace(pad)
    ensures Trim(s + pad) == Trim(s)
  {
    var left, right := TrimParts(s);
    hide Trim;
    assert s + pad == left + Trim(s) + (right + pad);
    TrimPadded(left, Trim(s), right + pad);
  }

  function Upper(c: byte): byte {
    if 'a' <= c <= 'z' then (c as int - 32) as char else c
  }

  function Lower(c: byte): byte {
    if 'A' <= c <= 'Z' then (c as int + 32) as char else c
  }

  function ToUpper(s: bytes): (r: bytes)
    ensures |r| == |s| && forall i :: 0 <= i < |s| ==> r[i] == Upper(s[i])
  {
    seq(|s|, i requires 0 <= i < |s| => Upper(s[i]))
  }

  function ToLower(s: bytes): (r: bytes)
    ensures |r| == |s| && forall i :: 0 <= i < |s| ==> r[i] == Lower(s[i])
  {
    seq(|s|, i requires 0 <= i < |s| => Lower(s[i]))
  }

  predicate EqualFold(a: bytes, b: bytes) {
    ToLower(a) == ToLower(b)
  }

  predicate HasPrefix(s: bytes, p: bytes) {
    p <= s
  }

  // ---------- Lines ----------

  predicate NoNewline(s: bytes) {
    '\n' !in s
  }

  predicate NewlineFree(ls: seq<bytes>) {
    forall i :: 0 <= i < |ls| ==> NoNewline(ls[i])
  }

  /** strings.Split(s, "\n"). */
  function Lines(s: bytes): (r: seq<bytes>)
    ensures r != [] && NewlineFree(r)
  {
    if s == [] then [[]]
    else
      var rest := Lines(s[1..]);
      if s[0] == '\n' then [[]] + rest else [[s[0]] + rest[0]] + rest[1..]
  }

  /** strings.Join(ls, "\n"). */
  function JoinLines(ls: seq<bytes>): bytes {
    if ls == [] then []
    else if |ls| == 1 then ls[0]
    else ls[0] + "\n" + JoinLines(ls[1..])
  }

  /** Every line followed by a newline. */
  function Unlines(ls: seq<bytes>): bytes {
    if ls == [] then [] else ls[0] + "\n" + Unlines(ls[1..])
  }

  lemma {:induction false} LinesCons(a: bytes, rest: bytes)
    requires NoNewline(a)
    ensures Lines(a + "\n" + rest) == [a] + Lines(rest)
  {
    if a == [] {
      assert (a + "\n" + rest)[1..] == rest;
    } else {
      LinesCons(a[1..], rest);
      assert (a + "\n" + rest)[1..] == a[1..] + "\n" + rest;
      assert a[0] in a && [a[0]] + a[1..] == a;
    }
  }

  /** Splitting undoes joining with a newline after every line. */
  lemma {:induction false} LinesOfUnlines(ls: seq<bytes>)
    requires NewlineFree(ls)
    ensures Lines(Unlines(ls)) == ls + [[]]
  {
    if ls != [] {
      LinesCons(ls[0], Unlines(ls[1..]));
      LinesOfUnlines(ls[1..]);
    }
  }

  /** Splitting a terminated block of lines leaves the split of what follows. */
  lemma {:induction false} LinesOfUnlinesThen(ls: seq<bytes>, rest: bytes)
    requires NewlineFree(ls)
    ensures Lines(Unlines(ls) + rest) == ls + Lines(rest)
  {
    hide Lines;
    if ls == [] {
      assert Unlines(ls) + rest == rest;
    } else {
      assert Unlines(ls) + rest == ls[0] + "\n" + (Unlines(ls[1..]) + rest);
      LinesCons(ls[0], Unlines(ls[1..]) + rest);
      LinesOfUnlinesThen(ls[1..], rest);
    }
  }

  lemma {:induction false} LinesSingle(a: bytes)
    requires NoNewline(a)
    ensures Lines(a) == [a]
  {
    if a != [] {
      assert a[0] in a && [a[0]] + a[1..] == a;
      LinesSingle(a[1..]);
    }
  }

  lemma {:induction false} UnlinesAppend(a: seq<bytes>, b: seq<bytes>)
    ensures Unlines(a + b) == Unlines(a) + Unlines(b)
  {
    if a == [] {
      assert a + b == b;
    } else {
      assert (a + b)[1..] == a[1..] + b;
      UnlinesAppend(a[1..], b);
    }
  }

  lemma {:induction false} JoinIsUnlines(ls: seq<bytes>)
    requires ls != []
    ensures JoinLines(ls) + "\n" == Unlines(ls)
  {
    if |ls| > 1 {
      JoinIsUnlines(ls[1..]);
    }
  }

  /** Splitting undoes joining, for a non-empty list of newline-free lines. */
  lemma {:induction false} LinesOfJoin(ls: seq<bytes>)
    requires ls != [] && NewlineFree(ls)
    ensures Lines(JoinLines(ls)) == ls
  {
    if |ls| == 1 {
      LinesSingle(ls[0]);
    } else {
      LinesCons(ls[0], JoinLines(ls[1..]));
      LinesOfJoin(ls[1..]);
    }
  }

  // ---------- Carriage returns ----------

  /** strings.ReplaceAll(s, "\r\n", "\n"). */
  function DropCr(s: bytes): bytes {
    if s == [] then []
    else if |s| >= 2 && s[0] == '\r' && s[1] == '\n' then "\n" + DropCr(s[2..])
    else [s[0]] + DropCr(s[1..])
  }

  /** One trailing carriage return removed. */
  function StripCr(s: bytes): bytes {
    if s != [] && s[|s| - 1] == '\r' then s[..|s| - 1] else s
  }

  function StripCrAll(ls: seq<bytes>): (r: seq<bytes>)
    ensures |r| == |ls| && forall i :: 0 <= i < |ls| ==> r[i] == StripCr(ls[i])
  {
    seq(|ls|, i requires 0 <= i < |ls| => StripCr(ls[i]))
  }

  predicate NoCrEnd(ls: seq<bytes>) {
    forall i :: 0 <= i < |ls| ==> ls[i] == [] || ls[i][|ls[i]| - 1] != '\r'
  }

  lemma StripCrFixed(ls: seq<bytes>)
    ensures StripCrAll(ls) == ls <==> NoCrEnd(ls)
  {
    if StripCrAll(ls) == ls {
      forall i | 0 <= i < |ls| ensures ls[i] == [] || ls[i][|ls[i]| - 1] != '\r' {
        assert StripCr(ls[i]) == ls[i];
      }
    }
  }

  lemma StripCrTrim(s: bytes)
    ensures Trim(StripCr(s)) == Trim(s)
  {
    if s != [] && s[|s| - 1] == '\r' {
      assert s == s[..|s| - 1] + "\r";
      TrimAppendSpace(s[..|s| - 1], "\r");
    }
  }

  lemma {:induction false} DropCrLine(a: bytes, rest: bytes)
    requires NoNewline(a)
    ensures DropCr(a + "\n" + rest) == StripCr(a) + "\n" + DropCr(rest)
    decreases |a|
  {
    var s := a + "\n" + rest;
    if a == [] {
      assert s[1..] == rest;
    } else if |a| == 1 {
      if a[0] == '\r' {
        assert s[2..] == rest;
      } else {
        assert s[1..] == [] + "\n" + rest;
        DropCrLine([], rest);
      }
    } else {
      assert s[1] == a[1] != '\n';
      assert s[1..] == a[1..] + "\n" + rest;
      DropCrLine(a[1..], rest);
    }
  }

  /** Dropping carriage returns acts line by line on terminated text. */
  lemma {:induction false} DropCrUnlines(ls: seq<bytes>)
    requires NewlineFree(ls)
    ensures DropCr(Unlines(ls)) == Unlines(StripCrAll(ls))
  {
    if ls != [] {
      DropCrLine(ls[0], Unlines(ls[1..]));
      DropCrUnlines(ls[1..]);
      assert StripCrAll(ls)[1..] == StripCrAll(ls[1..]);
    }
  }

  lemma {:induction false} UnlinesInjective(a: seq<bytes>, b: seq<bytes>)
    requires NewlineFree(a) && NewlineFree(b)
    requires Unlines(a) == Unlines(b)
    ensures a == b
  {
    LinesOfUnlines(a);
    LinesOfUnlines(b);
    assert (a + [[]])[..|a|] == a && (b + [[]])[..|b|] == b;
  }

  lemma {:induction false} DropCrFixed(s: bytes)
    requires '\r' !in s
    ensures DropCr(s) == s
  {
    if s != [] {
      DropCrFixed(s[1..]);
    }
  }

  lemma {:induction false} LinesWithout(s: bytes, c: byte)
    requires c !in s
    ensures forall i :: 0 <= i < |Lines(s)| ==> c !in Lines(s)[i]
  {
    if s != [] {
      LinesWithout(s[1..], c);
    }
  }
}
