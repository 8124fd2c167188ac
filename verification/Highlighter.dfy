/** The lossless highlighter of .pat text (web/public/js/pat-highlight.js). Tokens are objects whose type is
    recoloured in place; the word lists it colours by are parameters. */
module Highlighter {

  datatype Kind =
    | Ws | Comment | Str | Number | Command | Control | Event | Variable | ExtVar | Operator | Bracket | Unknown
    | RoomName | SectionName

  class Token {
    const text: string
    var kind: Kind

    constructor (k: Kind, t: string)
      ensures kind == k && text == t
    {
      kind, text := k, t;
    }
  }

  /** The word lists, keyed by upper-case words. */
  datatype Words = Words(control: set<string>, events: set<string>, extVars: set<string>)

  // ---------- Characters ----------

  predicate IsBlank(c: char) {
    c == ' ' || c == '\t' || c == '\r' || c == '\n'
  }

  predicate IsDigit(c: char) {
    '0' <= c <= '9'
  }

  predicate IsWordStart(c: char) {
    'A' <= c <= 'Z' || 'a' <= c <= 'z' || c == '_'
  }

  predicate IsWordChar(c: char) {
    IsWordStart(c) || IsDigit(c)
  }

  predicate IsBracketChar(c: char) {
    c == '{' || c == '}' || c == '[' || c == ']'
  }

  predicate EndsOperator(c: char) {
    IsBlank(c) || c == '"' || IsBracketChar(c) || c == '#' || c == ';' || IsWordChar(c)
  }

  function UpperChar(c: char): char {
    if 'a' <= c <= 'z' then (c as int - 32) as char else c
  }

  function Upper(s: string): string {
    seq(|s|, i requires 0 <= i < |s| => UpperChar(s[i]))
  }

  // ---------- Tokens ----------

  /** A token as a value. */
  datatype Piece = Piece(text: string, kind: Kind)

  function View(tokens: seq<Token>): (ps: seq<Piece>)
    reads tokens
    ensures |ps| == |tokens|
  {
    seq(|tokens|, i requires 0 <= i < |tokens| reads tokens => Piece(tokens[i].text, tokens[i].kind))
  }

  /** What a token of a kind looks like before any recolouring. */
  predicate Shaped(w: Words, k: Kind, t: string) {
    && t != ""
    && match k
       case Ws => forall i :: 0 <= i < |t| ==> IsBlank(t[i])
       case Comment => (t[0] == '#' || t[0] == ';') && forall i :: 0 <= i < |t| ==> t[i] != '\r' && t[i] != '\n'
       case Str => t[0] == '"' && QuoteAt(t, 1) >= |t| - 1
       case Bracket => |t| == 1 && IsBracketChar(t[0])
       case Number => (IsDigit(t[0]) || (t[0] == '-' && |t| > 1)) && forall i :: 1 <= i < |t| ==> IsDigit(t[i])
       case Operator => OpensOperator(t) && forall i :: 1 <= i < |t| ==> !EndsOperator(t[i])
       case Control => IsWord(t) && Upper(t) in w.control && (Upper(t) == "ON" ==> t == "ON")
       case Event => IsWord(t) && t in w.events && Upper(t) == t && Upper(t) !in w.control
       case ExtVar => IsWord(t) && Upper(t) in w.extVars && Upper(t) !in w.control && Upper(t) !in w.events
       case Variable => IsWord(t) && IsPlainWord(w, t)
       case _ => false
  }

  /** A word in none of the lists, or one that is spelled in lower case where the language wants upper case. */
  predicate IsPlainWord(w: Words, t: string) {
    var upper := Upper(t);
    if upper in w.control then upper == "ON" && t != "ON"
    else if upper in w.events then t != upper
    else upper !in w.extVars
  }

  predicate OpensOperator(t: string)
    requires t != ""
  {
    !EndsOperator(t[0]) && !(t[0] == '-' && |t| > 1 && IsDigit(t[1]))
  }

  /** The first quote from a position on that no backslash stands before, or the end of the script. */
  function QuoteAt(t: string, i: nat): (q: nat)
    ensures q == |t| || (i <= q < |t| && t[q] == '"')
    decreases |t| - i
  {
    if i >= |t| then |t| else if t[i] == '"' then i else if t[i] == '\\' then QuoteAt(t, i + 2) else QuoteAt(t, i + 1)
  }

  /** Which character would make a token of a kind longer. */
  predicate Extends(k: Kind, c: char) {
    match k
    case Ws => IsBlank(c)
    case Comment => c != '\r' && c != '\n'
    case Number => IsDigit(c)
    case Operator => !EndsOperator(c)
    case Control | Event | ExtVar | Variable => IsWordChar(c)
    case _ => false
  }

  predicate IsWord(t: string) {
    t != "" && IsWordStart(t[0]) && forall i :: 0 <= i < |t| ==> IsWordChar(t[i])
  }

  /** A token ends where the next character does not belong to it; a string ends with its closing quote. */
  predicate EndsBefore(k: Kind, t: string, c: char) {
    && !Extends(k, c)
    && (k == Str ==> QuoteAt(t, 1) + 1 == |t|)
    && !(k == Operator && t == "-" && IsDigit(c))
  }

  /** A list of tokens, each of its kind's shape and ending where the next one begins. */
  predicate Lexed(w: Words, ps: seq<Piece>) {
    && (forall i :: 0 <= i < |ps| ==> ps[i].text != "" && Shaped(w, ps[i].kind, ps[i].text))
    && (forall i :: 0 < i < |ps| ==> EndsBefore(ps[i - 1].kind, ps[i - 1].text, ps[i].text[0]))
  }

  function Concat(ps: seq<Piece>): string {
    if ps == [] then "" else ps[0].text + Concat(ps[1..])
  }

  lemma {:induction false} ConcatGrow(ps: seq<Piece>, p: Piece)
    ensures Concat(ps + [p]) == Concat(ps) + p.text
  {
    if ps == [] {
      assert [p][1..] == [] && "" + p.text == p.text;
    } else {
      assert (ps + [p])[1..] == ps[1..] + [p];
      ConcatGrow(ps[1..], p);
    }
  }

  lemma {:induction false} QuoteStable(t: string, longer: string, i: nat)
    requires |t| <= |longer| && longer[..|t|] == t && QuoteAt(t, i) < |t|
    ensures QuoteAt(longer, i) == QuoteAt(t, i)
    decreases |t| - i
  {
    assert i < |t| && longer[i] == t[i];
    if t[i] != '"' {
      QuoteStable(t, longer, if t[i] == '\\' then i + 2 else i + 1);
    }
  }

  /** A token that ends before a character is no proper beginning of another. */
  lemma NoShorterToken(w: Words, k1: Kind, t1: string, k2: Kind, t2: string)
    requires Shaped(w, k1, t1) && Shaped(w, k2, t2)
    requires |t1| < |t2| && t2[..|t1|] == t1
    ensures !EndsBefore(k1, t1, t2[|t1|])
  {
    hide QuoteAt, WordKind, IsPlainWord;
    assert t1[0] == t2[0] && (|t1| > 1 ==> t1[1] == t2[1]);
    if k1 == Str && QuoteAt(t1, 1) + 1 == |t1| {
      QuoteStable(t1, t2, 1);
    }
  }

  lemma KindDetermined(w: Words, k1: Kind, k2: Kind, t: string)
    requires Shaped(w, k1, t) && Shaped(w, k2, t)
    ensures k1 == k2
  {
    hide QuoteAt;
  }

  /** The first tokens of two lists that spell the same text are the same. */
  lemma FirstTokenUnique(w: Words, ps: seq<Piece>, qs: seq<Piece>)
    requires Lexed(w, ps) && Lexed(w, qs) && ps != [] && qs != [] && Concat(ps) == Concat(qs)
    requires |ps[0].text| <= |qs[0].text|
    ensures ps[0] == qs[0]
  {
    hide Shaped, EndsBefore;
    var p, q := ps[0], qs[0];
    assert Concat(ps)[..|p.text|] == p.text && Concat(qs)[..|q.text|] == q.text;
    assert q.text[..|p.text|] == p.text;
    if |p.text| < |q.text| {
      assert Concat(ps) == p.text + Concat(ps[1..]);
      assert ps[1..] != [] && Concat(ps)[|p.text|] == ps[1].text[0];
      NoShorterToken(w, p.kind, p.text, q.kind, q.text);
    } else {
      KindDetermined(w, p.kind, q.kind, p.text);
    }
  }

  /** A text has one list of tokens only: Lexed and Concat say all that the tokenizer does. */
  lemma {:induction false} LexedUnique(w: Words, ps: seq<Piece>, qs: seq<Piece>)
    requires Lexed(w, ps) && Lexed(w, qs) && Concat(ps) == Concat(qs)
    ensures ps == qs
  {
    hide Shaped, EndsBefore;
    if ps != [] && qs != [] {
      if |ps[0].text| <= |qs[0].text| {
        FirstTokenUnique(w, ps, qs);
      } else {
        FirstTokenUnique(w, qs, ps);
      }
      assert Concat(ps[1..]) == Concat(ps)[|ps[0].text|..] && Concat(qs[1..]) == Concat(qs)[|qs[0].text|..];
      LexedUnique(w, ps[1..], qs[1..]);
      assert ps == [ps[0]] + ps[1..] && qs == [qs[0]] + qs[1..];
    }
  }

  function WordKind(w: Words, word: string): Kind {
    var upper := Upper(word);
    if upper in w.control then (if upper == "ON" && word != "ON" then Variable else Control)
    else if upper in w.events then (if word == upper then Event else Variable)
    else if upper in w.extVars then ExtVar
    else Variable
  }

  /** Where the run of characters that a test accepts ends. */
  method RunEnd(script: string, from: nat, accepts: char -> bool) returns (i: nat)
    requires from <= |script|
    ensures from <= i <= |script| && forall k :: from <= k < i ==> accepts(script[k])
    ensures i < |script| ==> !accepts(script[i])
  {
    i := from;
    while i < |script| && accepts(script[i])
      invariant from <= i <= |script| && forall k :: from <= k < i ==> accepts(script[k])
    {
      i := i + 1;
    }
  }

  function Clipped(i: nat, script: string): (c: nat)
    ensures c <= i && c <= |script|
  {
    if i > |script| then |script| else i
  }

  /** The end of a string token: past its closing quote, or past the end of the script. A trailing
      backslash steps over the end. */
  method StringEnd(script: string, from: nat) returns (i: nat)
    requires from <= |script|
    ensures from <= i <= |script| + 1
    ensures if QuoteAt(script, from) < |script| then i == QuoteAt(script, from) + 1 else i >= |script|
  {
    i := from;
    while i < |script|
      invariant from <= i <= |script| + 1
      invariant QuoteAt(script, i) == QuoteAt(script, from)
    {
      var c := script[i];
      if c == '\\' {
        i := i + 2;
        continue;
      }
      if c == '"' {
        i := i + 1;
        break;
      }
      i := i + 1;
    }
  }

  /** Reading a string token by itself finds the same closing quote. */
  lemma {:induction false} QuoteInToken(script: string, start: nat, i: nat, end: nat)
    requires start <= end <= |script| && start <= i
    requires end == if QuoteAt(script, i) < |script| then QuoteAt(script, i) + 1 else |script|
    ensures QuoteAt(script[start..end], i - start) == if QuoteAt(script, i) < |script| then end - start - 1 else end - start
    decreases |script| - i
  {
    if i < end && script[i] != '"' {
      QuoteInToken(script, start, if script[i] == '\\' then i + 2 else i + 1, end);
    }
  }

  /** One token of the script, from a position on: of its kind's shape, and as long as it can be. The position
      after it may lie one past the end. */
  method NextToken(w: Words, script: string, start: nat) returns (kind: Kind, next: nat)
    requires start < |script|
    ensures start < next <= |script| + 1
    ensures Shaped(w, kind, script[start..Clipped(next, script)])
    ensures next < |script| ==> EndsBefore(kind, script[start..next], script[next])
  {
    hide Shaped, Extends, QuoteAt, WordKind, EndsOperator, EndsBefore;
    var cc := script[start];
    if IsBlank(cc) {
      next := RunEnd(script, start, IsBlank);
      kind := Ws;
      WsShaped(w, script, start, next);
    } else if cc == '#' || cc == ';' {
      next := RunEnd(script, start + 1, NoLineEnd);
      kind := Comment;
      CommentShaped(w, script, start, next);
    } else if cc == '"' {
      next := StringEnd(script, start + 1);
      kind := Str;
      StrShaped(w, script, start, Clipped(next, script));
    } else if IsBracketChar(cc) {
      next := start + 1;
      kind := Bracket;
      BracketShaped(w, script, start);
    } else if IsDigit(cc) || (cc == '-' && start + 1 < |script| && IsDigit(script[start + 1])) {
      next := RunEnd(script, if cc == '-' then start + 1 else start, IsDigit);
      kind := Number;
      NumberShaped(w, script, start, next);
    } else if IsWordStart(cc) {
      next := RunEnd(script, start, IsWordChar);
      var word := script[start..next];
      kind := WordKind(w, word);
      WordShaped(w, word);
    } else {
      next := RunEnd(script, start + 1, StaysOperator);
      kind := Operator;
      NotEndsOperator(cc);
      OperatorShaped(w, script, start, next);
    }
    if next < |script| && kind != Str {
      Ended(kind, script[start..next], script[next]);
    }
  }

  predicate NoLineEnd(c: char) {
    c != '\r' && c != '\n'
  }

  predicate StaysOperator(c: char) {
    !EndsOperator(c)
  }

  lemma WsShaped(w: Words, script: string, start: nat, next: nat)
    requires start < next <= |script| && forall k :: start <= k < next ==> IsBlank(script[k])
    ensures Shaped(w, Ws, script[start..next])
    ensures next < |script| && !IsBlank(script[next]) ==> !Extends(Ws, script[next])
  {
  }

  lemma CommentShaped(w: Words, script: string, start: nat, next: nat)
    requires start < next <= |script| && (script[start] == '#' || script[start] == ';')
    requires forall k :: start < k < next ==> NoLineEnd(script[k])
    ensures Shaped(w, Comment, script[start..next])
    ensures next < |script| && !NoLineEnd(script[next]) ==> !Extends(Comment, script[next])
  {
    forall i | 0 <= i < next - start
      ensures script[start..next][i] != '\r' && script[start..next][i] != '\n'
    {
      assert i == 0 || NoLineEnd(script[start + i]);
    }
  }

  lemma StrShaped(w: Words, script: string, start: nat, end: nat)
    requires start < end <= |script| && script[start] == '"'
    requires end == if QuoteAt(script, start + 1) < |script| then QuoteAt(script, start + 1) + 1 else |script|
    ensures Shaped(w, Str, script[start..end])
    ensures end < |script| ==> EndsBefore(Str, script[start..end], script[end])
  {
    QuoteInToken(script, start, start + 1, end);
  }

  lemma Ended(k: Kind, t: string, c: char)
    requires k != Str && !Extends(k, c) && !(k == Operator && t == "-" && IsDigit(c))
    ensures EndsBefore(k, t, c)
  {
  }

  lemma BracketShaped(w: Words, script: string, start: nat)
    requires start < |script| && IsBracketChar(script[start])
    ensures Shaped(w, Bracket, script[start..start + 1])
    ensures forall c :: !Extends(Bracket, c)
  {
  }

  lemma NumberShaped(w: Words, script: string, start: nat, next: nat)
    requires start < next <= |script| && (IsDigit(script[start]) || (script[start] == '-' && start + 1 < next))
    requires forall k :: start < k < next ==> IsDigit(script[k])
    ensures Shaped(w, Number, script[start..next])
    ensures next < |script| && !IsDigit(script[next]) ==> !Extends(Number, script[next])
  {
    forall i | 1 <= i < next - start
      ensures IsDigit(script[start..next][i])
    {
      assert IsDigit(script[start + i]);
    }
  }

  lemma OperatorShaped(w: Words, script: string, start: nat, next: nat)
    requires start < next <= |script| && !EndsOperator(script[start])
    requires script[start] == '-' && start + 1 < |script| ==> !IsDigit(script[start + 1])
    requires forall k :: start < k < next ==> StaysOperator(script[k])
    ensures Shaped(w, Operator, script[start..next])
    ensures next < |script| && !StaysOperator(script[next]) ==> !Extends(Operator, script[next])
  {
    forall i | 1 <= i < next - start
      ensures !EndsOperator(script[start..next][i])
    {
      assert StaysOperator(script[start + i]);
    }
  }

  lemma NotEndsOperator(c: char)
    requires !IsBlank(c) && c != '#' && c != ';' && c != '"' && !IsBracketChar(c) && !IsDigit(c) && !IsWordStart(c)
    ensures !EndsOperator(c)
  {
  }

  lemma WordShaped(w: Words, word: string)
    requires IsWord(word)
    ensures Shaped(w, WordKind(w, word), word)
    ensures forall c :: Extends(WordKind(w, word), c) <==> IsWordChar(c)
  {
  }

  /** The tokens are new, their texts make up the script, and they are the script's only list of tokens. */
  method Tokenize(w: Words, script: string) returns (tokens: seq<Token>)
    ensures fresh(set t | t in tokens)
    ensures Concat(View(tokens)) == script
    ensures Lexed(w, View(tokens))
    ensures Distinct(tokens)
  {
    hide Shaped, EndsBefore, Concat;
    tokens := [];
    var i := 0;
    NoTokens();
    while i < |script|
      invariant i <= |script| + 1
      invariant Concat(View(tokens)) == script[..Clipped(i, script)]
      invariant fresh(set t | t in tokens)
      invariant Lexed(w, View(tokens))
      invariant |tokens| > 0 && i < |script| ==> EndsBefore(tokens[|tokens| - 1].kind, tokens[|tokens| - 1].text, script[i])
      invariant Distinct(tokens)
      decreases |script| + 1 - i
    {
      var kind, next := NextToken(w, script, i);
      var end := Clipped(next, script);
      var t := new Token(kind, script[i..end]);
      ghost var was := View(tokens);
      ConcatGrow(was, Piece(t.text, kind));
      assert script[..i] + script[i..end] == script[..end];
      assert t.text[0] == script[i];
      tokens := tokens + [t];
      assert View(tokens) == was + [Piece(t.text, kind)];
      i := next;
    }
    assert script[..|script|] == script;
  }

  lemma NoTokens()
    ensures Concat([]) == ""
  {
  }

  // ---------- Recolouring ----------

  predicate Distinct(tokens: seq<Token>) {
    forall i, j :: 0 <= i < j < |tokens| ==> tokens[i] != tokens[j]
  }

  /** An ON that only white space separates from an event name. */
  ghost predicate OnBeforeEvent(ps: seq<Piece>, i: nat)
    requires i < |ps|
  {
    && ps[i].kind == Control && Upper(ps[i].text) == "ON"
    && exists j :: i < j < |ps| && ps[j].kind == Event && AllBlank(ps, i + 1, j)
  }

  predicate AllBlank(ps: seq<Piece>, lo: nat, hi: nat)
    requires hi <= |ps|
  {
    forall k :: lo <= k < hi ==> ps[k].kind == Ws
  }

  /** The types after the first pass. */
  ghost function Turned(ps: seq<Piece>): (r: seq<Piece>)
    ensures |r| == |ps| && forall i :: 0 <= i < |ps| ==> r[i].text == ps[i].text
  {
    seq(|ps|, i requires 0 <= i < |ps| => if OnBeforeEvent(ps, i) then ps[i].(kind := Event) else ps[i])
  }

  predicate Opens(p: Piece) {
    p == Piece("{", Bracket)
  }

  predicate Closes(p: Piece) {
    p == Piece("}", Bracket)
  }

  /** The depth before a token; a closing brace too many is ignored. */
  function Depth(ps: seq<Piece>, n: nat): nat
    requires n <= |ps|
  {
    if n == 0 then 0
    else if Opens(ps[n - 1]) then Depth(ps, n - 1) + 1
    else if Closes(ps[n - 1]) && Depth(ps, n - 1) > 0 then Depth(ps, n - 1) - 1
    else Depth(ps, n - 1)
  }

  predicate NoBrace(ps: seq<Piece>, lo: nat, hi: nat)
    requires hi <= |ps|
  {
    forall k :: lo <= k < hi ==> !Opens(ps[k]) && !Closes(ps[k])
  }

  predicate Handles(k: Kind) {
    k == Event || k == Control
  }

  predicate Nameable(k: Kind) {
    k == Variable || k == Str || k == Number
  }

  /** The brace at b is the first one after i, and it opens. */
  predicate OpensAfter(ps: seq<Piece>, i: nat, b: nat) {
    i < b < |ps| && Opens(ps[b]) && NoBrace(ps, i, b)
  }

  /** An event name or control word stands between a brace and the one before it. */
  ghost predicate HandlerBefore(ps: seq<Piece>, b: nat)
    requires b <= |ps|
  {
    exists k :: 0 <= k < b && NoBrace(ps, k, b) && Handles(ps[k].kind)
  }

  /** A token names a room or section when the next brace opens at depth 0 or 1 and is not an event handler's. */
  ghost predicate IsName(ps: seq<Piece>, i: nat)
    requires i < |ps|
  {
    && Nameable(ps[i].kind)
    && Depth(ps, i) <= 1
    && exists b :: OpensAfter(ps, i, b) && !HandlerBefore(ps, b)
  }

  ghost function NamedKind(ps: seq<Piece>, i: nat): Kind
    requires i < |ps|
  {
    if !IsName(ps, i) then ps[i].kind else if Depth(ps, i) == 0 then RoomName else SectionName
  }

  /** What annotation makes of the types. */
  ghost function Annotated(ps: seq<Piece>): (r: seq<Piece>)
    ensures |r| == |ps| && forall i :: 0 <= i < |ps| ==> r[i].text == ps[i].text
  {
    var turned := Turned(ps);
    seq(|ps|, i requires 0 <= i < |ps| => turned[i].(kind := NamedKind(turned, i)))
  }

  /** Colours an ON that stands before an event name. */
  method ColourOn(tokens: seq<Token>)
    requires Distinct(tokens)
    modifies tokens
    ensures View(tokens) == Turned(old(View(tokens)))
  {
    ghost var ps := View(tokens);
    for t := 0 to |tokens|
      invariant forall i :: 0 <= i < t ==> tokens[i].kind == Turned(ps)[i].kind
      invariant forall i :: t <= i < |tokens| ==> tokens[i].kind == ps[i].kind
    {
      if tokens[t].kind == Control && Upper(tokens[t].text) == "ON" {
        var next := t + 1;
        while next < |tokens| && tokens[next].kind == Ws
          invariant t < next <= |tokens|
          invariant AllBlank(ps, t + 1, next)
        {
          next := next + 1;
        }
        if next < |tokens| && tokens[next].kind == Event {
          assert OnBeforeEvent(ps, t);
          tokens[t].kind := Event;
        } else {
          NotBeforeEvent(ps, t, next);
        }
      }
    }
  }

  lemma NotBeforeEvent(ps: seq<Piece>, t: nat, next: nat)
    requires t < next <= |ps| && AllBlank(ps, t + 1, next)
    requires next < |ps| ==> ps[next].kind != Ws && ps[next].kind != Event
    ensures !OnBeforeEvent(ps, t)
  {
    forall j | t < j < |ps| && ps[j].kind == Event
      ensures !AllBlank(ps, t + 1, j)
    {
      assert j > next ==> ps[next].kind != Ws;
    }
  }

  predicate IsHandler(pending: seq<Token>)
    reads pending
  {
    exists t :: t in pending && Handles(t.kind)
  }

  function NameOf(k: Kind, handler: bool, depth: nat): Kind {
    if handler || depth > 1 || !Nameable(k) then k else if depth == 0 then RoomName else SectionName
  }

  /** Names the pending words at depth 0 or 1, unless they are an event handler's. */
  method NamePending(pending: seq<Token>, depth: nat)
    modifies pending
    ensures forall t :: t in pending ==> t.kind == NameOf(old(t.kind), old(IsHandler(pending)), depth)
  {
    var isIptHandler := false;
    for p := 0 to |pending|
      invariant isIptHandler <==> exists i :: 0 <= i < p && Handles(pending[i].kind)
    {
      if Handles(pending[p].kind) {
        isIptHandler := true;
      }
    }
    assert isIptHandler <==> IsHandler(pending);
    if !isIptHandler && depth <= 1 {
      var nameType := if depth == 0 then RoomName else SectionName;
      for p := 0 to |pending|
        invariant forall t :: t in pending ==> t.kind == old(t.kind) || (Nameable(old(t.kind)) && t.kind == nameType)
        invariant forall i :: 0 <= i < p ==> !Nameable(pending[i].kind)
      {
        var pw := pending[p];
        if Nameable(pw.kind) {
          pw.kind := nameType;
        }
      }
    }
  }

  /** The event an ON EVENT block is for, if the pending words say so. */
  method EventOf(w: Words, pending: seq<Token>) returns (event: string)
    ensures event == "" || event in w.events
  {
    event := "";
    var seenOn := false;
    for p := 0 to |pending|
      invariant event == ""
    {
      var upper := Upper(pending[p].text);
      if !seenOn && upper == "ON" {
        seenOn := true;
        continue;
      }
      if seenOn && upper in w.events {
        return upper;
      }
    }
  }

  predicate Solid(k: Kind) {
    k != Ws && k != Comment && k != Bracket
  }

  /** The solid tokens of a stretch. */
  ghost function Pending(tokens: seq<Token>, ps: seq<Piece>, lo: nat, hi: nat): seq<Token>
    requires lo <= hi <= |tokens| == |ps|
  {
    if lo == hi then []
    else Pending(tokens, ps, lo, hi - 1) + if Solid(ps[hi - 1].kind) then [tokens[hi - 1]] else []
  }

  lemma {:induction false} PendingHas(tokens: seq<Token>, ps: seq<Piece>, lo: nat, hi: nat, x: Token)
    requires lo <= hi <= |tokens| == |ps|
    ensures x in Pending(tokens, ps, lo, hi) <==> exists k :: lo <= k < hi && tokens[k] == x && Solid(ps[k].kind)
  {
    if lo < hi {
      PendingHas(tokens, ps, lo, hi - 1, x);
    }
  }

  lemma {:induction false} DepthKept(ps: seq<Piece>, i: nat, b: nat)
    requires i <= b <= |ps| && NoBrace(ps, i, b)
    ensures Depth(ps, b) == Depth(ps, i)
  {
    if i < b {
      DepthKept(ps, i, b - 1);
    }
  }

  /** What an opening brace makes of a token of the stretch before it. */
  lemma NamedAtOpening(ps: seq<Piece>, i: nat, b: nat)
    requires OpensAfter(ps, i, b)
    ensures NamedKind(ps, i) == NameOf(ps[i].kind, HandlerBefore(ps, b), Depth(ps, b))
  {
    hide HandlerBefore, Depth;
    DepthKept(ps, i, b);
    assert forall c :: OpensAfter(ps, i, c) ==> c == b;
  }

  lemma NotNamed(ps: seq<Piece>, i: nat, b: nat)
    requires i <= b <= |ps| && NoBrace(ps, i, b) && (b < |ps| ==> Closes(ps[b]))
    ensures i < |ps| ==> NamedKind(ps, i) == ps[i].kind
  {
    hide HandlerBefore, Depth;
    assert forall c :: !OpensAfter(ps, i, c);
  }

  /** The stretch before a brace holds a handler exactly when its solid tokens do. */
  lemma HandlerIsPending(tokens: seq<Token>, ps: seq<Piece>, lo: nat, b: nat)
    requires lo <= b <= |tokens| == |ps| && NoBrace(ps, lo, b)
    requires lo > 0 ==> Opens(ps[lo - 1]) || Closes(ps[lo - 1])
    requires forall k :: lo <= k < b ==> tokens[k].kind == ps[k].kind
    ensures IsHandler(Pending(tokens, ps, lo, b)) <==> HandlerBefore(ps, b)
  {
    hide Pending;
    forall x: Token ensures x in Pending(tokens, ps, lo, b) <==> exists k :: lo <= k < b && tokens[k] == x && Solid(ps[k].kind) {
      PendingHas(tokens, ps, lo, b, x);
    }
    if IsHandler(Pending(tokens, ps, lo, b)) {
      var x :| x in Pending(tokens, ps, lo, b) && Handles(x.kind);
      var k :| lo <= k < b && tokens[k] == x && Solid(ps[k].kind);
      assert NoBrace(ps, k, b);
    }
    if HandlerBefore(ps, b) {
      var k :| 0 <= k < b && NoBrace(ps, k, b) && Handles(ps[k].kind);
      assert lo <= k;
      assert tokens[k] in Pending(tokens, ps, lo, b);
    }
  }

  /** An opening brace settles the types of the stretch before it. */
  method SettleStretch(tokens: seq<Token>, pending: seq<Token>, depth: nat, ghost ps: seq<Piece>, ghost lo: nat, ghost b: nat)
    requires Distinct(tokens)
    requires lo <= b < |tokens| == |ps| && Opens(ps[b]) && NoBrace(ps, lo, b) && depth == Depth(ps, b)
    requires lo > 0 ==> Opens(ps[lo - 1]) || Closes(ps[lo - 1])
    requires forall k :: lo <= k < b ==> tokens[k].kind == ps[k].kind
    requires pending == if depth <= 1 then Pending(tokens, ps, lo, b) else []
    modifies tokens
    ensures forall k :: lo <= k < b ==> tokens[k].kind == NamedKind(ps, k)
    ensures forall k :: (0 <= k < lo || b <= k < |tokens|) ==> tokens[k].kind == old(tokens[k].kind)
  {
    hide Pending, HandlerBefore, Depth, NamedKind;
    forall x: Token ensures x in Pending(tokens, ps, lo, b) <==> exists k :: lo <= k < b && tokens[k] == x && Solid(ps[k].kind) {
      PendingHas(tokens, ps, lo, b, x);
    }
    HandlerIsPending(tokens, ps, lo, b);
    forall k | lo <= k < b ensures NamedKind(ps, k) == NameOf(ps[k].kind, HandlerBefore(ps, b), depth) {
      NamedAtOpening(ps, k, b);
    }
    forall k | (0 <= k < lo || b <= k < |tokens|) ensures tokens[k] !in pending {
      assert forall j :: lo <= j < b ==> tokens[j] != tokens[k];
    }
    forall i | 0 <= i < |pending| ensures pending[i] in tokens {
      PendingHas(tokens, ps, lo, b, pending[i]);
    }
    NamePending(pending, depth);
    forall k | lo <= k < b ensures tokens[k].kind == NamedKind(ps, k) {
      if Solid(ps[k].kind) && depth <= 1 {
        assert tokens[k] in pending;
      } else {
        assert tokens[k] !in pending;
      }
    }
  }

  datatype OpenEvent = OpenEvent(event: string, depth: nat)

  /** The second pass: names the words before braces that open a room or a section. */
  method NameSections(w: Words, tokens: seq<Token>)
    requires Distinct(tokens)
    modifies tokens
    ensures forall k :: 0 <= k < |tokens| ==> tokens[k].kind == NamedKind(old(View(tokens)), k)
  {
    hide Pending, HandlerBefore, NamedKind, Depth, NoBrace;
    ghost var ps := View(tokens);
    var depth: nat := 0;
    var eventStack: seq<OpenEvent> := [];
    var pendingNamed: seq<Token> := [];
    ghost var lo: nat := 0;
    StretchStart(tokens, ps, 0);
    for t := 0 to |tokens|
      invariant lo <= t && NoBrace(ps, lo, t) && depth == Depth(ps, t)
      invariant lo > 0 ==> Opens(ps[lo - 1]) || Closes(ps[lo - 1])
      invariant forall k :: 0 <= k < lo ==> tokens[k].kind == NamedKind(ps, k)
      invariant forall k :: lo <= k < |tokens| ==> tokens[k].kind == ps[k].kind
      invariant pendingNamed == if depth <= 1 then Pending(tokens, ps, lo, t) else []
    {
      var tok := tokens[t];
      assert ps[t] == Piece(tok.text, tok.kind);
      DepthStep(ps, t);
      if tok.kind == Ws || tok.kind == Comment {
        StretchStep(tokens, ps, lo, t);
        continue;
      }
      if tok.kind == Bracket {
        if tok.text == "{" {
          SettleStretch(tokens, pendingNamed, depth, ps, lo, t);
          if |pendingNamed| > 0 {
            var evName := EventOf(w, pendingNamed);
            if evName != "" {
              eventStack := eventStack + [OpenEvent(evName, depth)];
            }
          }
          BraceKeepsKind(ps, t);
          depth := depth + 1;
          pendingNamed := [];
          lo := t + 1;
          StretchStart(tokens, ps, lo);
        } else if tok.text == "}" {
          ClosedUnnamed(ps, lo, t);
          depth := if depth > 0 then depth - 1 else 0;
          pendingNamed := [];
          if |eventStack| > 0 && eventStack[|eventStack| - 1].depth == depth {
            eventStack := eventStack[..|eventStack| - 1];
          }
          BraceKeepsKind(ps, t);
          lo := t + 1;
          StretchStart(tokens, ps, lo);
        } else {
          StretchStep(tokens, ps, lo, t);
        }
        continue;
      }
      StretchStep(tokens, ps, lo, t);
      if depth == 0 || depth == 1 {
        pendingNamed := pendingNamed + [tok];
      }
    }
    ClosedUnnamed(ps, lo, |ps|);
  }

  /** Annotation changes types only: which ones, Annotated says without running it. */
  method Annotate(w: Words, tokens: seq<Token>)
    requires Distinct(tokens)
    modifies tokens
    ensures View(tokens) == Annotated(old(View(tokens)))
  {
    hide NamedKind;
    ColourOn(tokens);
    ghost var turned := View(tokens);
    NameSections(w, tokens);
    assert forall k :: 0 <= k < |tokens| ==> View(tokens)[k] == turned[k].(kind := NamedKind(turned, k));
  }

  lemma DepthStep(ps: seq<Piece>, t: nat)
    requires t < |ps|
    ensures Depth(ps, 0) == 0
    ensures Depth(ps, t + 1) == if Opens(ps[t]) then Depth(ps, t) + 1 else if Closes(ps[t]) && Depth(ps, t) > 0 then Depth(ps, t) - 1 else Depth(ps, t)
  {
  }

  lemma ClosedUnnamed(ps: seq<Piece>, lo: nat, b: nat)
    requires lo <= b <= |ps| && NoBrace(ps, lo, b) && (b < |ps| ==> Closes(ps[b]))
    ensures forall k :: lo <= k < b ==> NamedKind(ps, k) == ps[k].kind
  {
    forall k | lo <= k < b
      ensures NamedKind(ps, k) == ps[k].kind
    {
      NotNamed(ps, k, b);
    }
  }

  lemma StretchStep(tokens: seq<Token>, ps: seq<Piece>, lo: nat, t: nat)
    requires lo <= t < |tokens| == |ps| && NoBrace(ps, lo, t) && !Opens(ps[t]) && !Closes(ps[t])
    ensures NoBrace(ps, lo, t + 1)
    ensures Pending(tokens, ps, lo, t + 1) == Pending(tokens, ps, lo, t) + if Solid(ps[t].kind) then [tokens[t]] else []
  {
  }

  lemma StretchStart(tokens: seq<Token>, ps: seq<Piece>, lo: nat)
    requires lo <= |tokens| == |ps|
    ensures NoBrace(ps, lo, lo) && Pending(tokens, ps, lo, lo) == [] && Depth(ps, 0) == 0
  {
  }

  lemma BraceKeepsKind(ps: seq<Piece>, t: nat)
    requires t < |ps| && ps[t].kind == Bracket
    ensures NamedKind(ps, t) == Bracket
  {
  }

  // ---------- HTML ----------

  function ReplaceAll(t: string, c: char, into: string): string {
    if t == "" then "" else (if t[0] == c then into else [t[0]]) + ReplaceAll(t[1..], c, into)
  }

  /** Three replacements in a row; a text without any of the three characters is returned as it is. */
  function EscHtml(t: string): string {
    if '&' !in t && '<' !in t && '>' !in t then t
    else ReplaceAll(ReplaceAll(ReplaceAll(t, '&', "&amp;"), '<', "&lt;"), '>', "&gt;")
  }

  function ClassOf(k: Kind): string {
    match k
    case Ws => ""
    case Comment => "ipt-comment"
    case Str => "ipt-string"
    case Number => "ipt-number"
    case Command => "ipt-command"
    case Control => "ipt-control"
    case Event => "ipt-event"
    case Variable => "ipt-variable"
    case ExtVar => "ipt-extvar"
    case Operator => "ipt-operator"
    case Bracket => "ipt-bracket"
    case Unknown => ""
    case RoomName => "ipt-room"
    case SectionName => "ipt-section"
  }

  function HtmlOf(k: Kind, text: string): string {
    if ClassOf(k) == "" then EscHtml(text)
    else "<span class=\"" + ClassOf(k) + "\">" + EscHtml(text) + "</span>"
  }

  function RenderedOf(ps: seq<Piece>): string {
    if ps == [] then "" else HtmlOf(ps[0].kind, ps[0].text) + RenderedOf(ps[1..])
  }

  lemma {:induction false} RenderedGrow(ps: seq<Piece>, p: Piece)
    ensures RenderedOf(ps + [p]) == RenderedOf(ps) + HtmlOf(p.kind, p.text)
  {
    hide HtmlOf;
    if ps == [] {
      assert ps + [p] == [p] && [p][1..] == [];
    } else {
      assert (ps + [p])[1..] == ps[1..] + [p];
      RenderedGrow(ps[1..], p);
    }
  }

  method RenderHtml(tokens: seq<Token>) returns (html: string)
    ensures html == RenderedOf(View(tokens))
  {
    hide EscHtml, ClassOf;
    html := "";
    ghost var ps := View(tokens);
    for i := 0 to |tokens|
      invariant html == RenderedOf(ps[..i])
    {
      var tok := tokens[i];
      RenderedGrow(ps[..i], ps[i]);
      assert ps[..i + 1] == ps[..i] + [ps[i]];
      var cls := ClassOf(tok.kind);
      var esc := EscHtml(tok.text);
      html := html + (if cls != "" then "<span class=\"" + cls + "\">" + esc + "</span>" else esc);
    }
    assert ps[..|tokens|] == ps;
  }

  // ---------- What the HTML shows ----------

  /** The length of a tag, up to and including its closing bracket. */
  function TagLength(html: string): (n: nat)
    ensures n <= |html|
  {
    if html == "" then 0 else if html[0] == '>' then 1 else 1 + TagLength(html[1..])
  }

  /** The text HTML shows: tags stripped and the three escapes undone. */
  function Shown(html: string): string
    decreases |html|
  {
    if html == "" then ""
    else if html[0] == '<' then Shown(html[1 + TagLength(html[1..])..])
    else if html[0] == '&' && |html| >= 5 && html[..5] == "&amp;" then "&" + Shown(html[5..])
    else if html[0] == '&' && |html| >= 4 && html[..4] == "&lt;" then "<" + Shown(html[4..])
    else if html[0] == '&' && |html| >= 4 && html[..4] == "&gt;" then ">" + Shown(html[4..])
    else [html[0]] + Shown(html[1..])
  }

  function EscChar(c: char): string {
    if c == '&' then "&amp;" else if c == '<' then "&lt;" else if c == '>' then "&gt;" else [c]
  }

  /** Escaping, one character at a time. */
  function EscEach(t: string): string {
    if t == "" then "" else EscChar(t[0]) + EscEach(t[1..])
  }

  lemma {:induction false} ReplaceAppend(a: string, b: string, c: char, into: string)
    ensures ReplaceAll(a + b, c, into) == ReplaceAll(a, c, into) + ReplaceAll(b, c, into)
  {
    if a == "" {
      assert a + b == b;
    } else {
      assert (a + b)[1..] == a[1..] + b;
      ReplaceAppend(a[1..], b, c, into);
    }
  }

  lemma {:induction false} ReplaceNothing(t: string, c: char, into: string)
    requires c !in t
    ensures ReplaceAll(t, c, into) == t
  {
    if t != "" {
      assert t[0] in t && [t[0]] + t[1..] == t;
      ReplaceNothing(t[1..], c, into);
    }
  }

  lemma ReplaceSingle(c: char, d: char, into: string)
    ensures ReplaceAll([c], d, into) == if c == d then into else [c]
  {
    assert [c][1..] == "";
    assert ReplaceAll([c], d, into) == (if c == d then into else [c]) + "";
  }

  lemma ReplaceOne(c: char)
    ensures ReplaceAll(ReplaceAll(ReplaceAll([c], '&', "&amp;"), '<', "&lt;"), '>', "&gt;") == EscChar(c)
  {
    hide ReplaceAll;
    ReplaceSingle(c, '&', "&amp;");
    ReplaceSingle(c, '<', "&lt;");
    ReplaceSingle(c, '>', "&gt;");
    ReplaceNothing("&amp;", '<', "&lt;");
    ReplaceNothing("&amp;", '>', "&gt;");
    ReplaceNothing("&lt;", '>', "&gt;");
  }

  /** The three replacements do not disturb each other. */
  lemma {:induction false} EscIsEach(t: string)
    ensures ReplaceAll(ReplaceAll(ReplaceAll(t, '&', "&amp;"), '<', "&lt;"), '>', "&gt;") == EscEach(t)
  {
    hide ReplaceAll, EscChar;
    if t == "" {
      ReplaceNothing(t, '&', "&amp;");
      ReplaceNothing(t, '<', "&lt;");
      ReplaceNothing(t, '>', "&gt;");
    } else {
      var a, b := [t[0]], t[1..];
      assert a + b == t;
      ReplaceAppend(a, b, '&', "&amp;");
      ReplaceAppend(ReplaceAll(a, '&', "&amp;"), ReplaceAll(b, '&', "&amp;"), '<', "&lt;");
      ReplaceAppend(ReplaceAll(ReplaceAll(a, '&', "&amp;"), '<', "&lt;"), ReplaceAll(ReplaceAll(b, '&', "&amp;"), '<', "&lt;"), '>', "&gt;");
      ReplaceOne(t[0]);
      EscIsEach(b);
    }
  }

  lemma {:induction false} EachUnchanged(t: string)
    requires '&' !in t && '<' !in t && '>' !in t
    ensures EscEach(t) == t
  {
    if t != "" {
      assert t[0] in t && [t[0]] + t[1..] == t;
      EachUnchanged(t[1..]);
    }
  }

  lemma ShownAmp(rest: string)
    ensures Shown("&amp;" + rest) == "&" + Shown(rest)
  {
    var h := "&amp;" + rest;
    assert h[..5] == "&amp;" && h[5..] == rest;
  }

  lemma ShownAngle(c: char, rest: string)
    requires c == '<' || c == '>'
    ensures Shown(EscChar(c) + rest) == [c] + Shown(rest)
  {
    var e := EscChar(c);
    var h := e + rest;
    assert h[..4] == e && h[4..] == rest && h[1] == e[1] && e[1] != 'a';
    if |h| >= 5 {
      assert h[..5][1] != "&amp;"[1];
    }
    if c == '>' {
      assert h[..4][1] != "&lt;"[1];
    }
  }

  lemma ShownPlain(c: char, rest: string)
    requires c != '&' && c != '<' && c != '>'
    ensures Shown([c] + rest) == [c] + Shown(rest)
  {
    var h := [c] + rest;
    assert h[1..] == rest;
  }

  lemma ShownChar(c: char, rest: string)
    ensures Shown(EscChar(c) + rest) == [c] + Shown(rest)
  {
    hide Shown;
    if c == '&' {
      ShownAmp(rest);
    } else if c == '<' || c == '>' {
      ShownAngle(c, rest);
    } else {
      ShownPlain(c, rest);
    }
  }

  /** Escaped text shows as the text. */
  lemma {:induction false} ShownEach(t: string, rest: string)
    ensures Shown(EscEach(t) + rest) == t + Shown(rest)
  {
    hide Shown, EscChar;
    if t == "" {
      assert EscEach(t) + rest == rest;
    } else {
      ShownChar(t[0], EscEach(t[1..]) + rest);
      assert EscEach(t) + rest == EscChar(t[0]) + (EscEach(t[1..]) + rest);
      ShownEach(t[1..], rest);
    }
  }

  lemma ShownEsc(t: string, rest: string)
    ensures Shown(EscHtml(t) + rest) == t + Shown(rest)
  {
    hide Shown, ReplaceAll, EscEach;
    ShownEach(t, rest);
    EscIsEach(t);
    if '&' !in t && '<' !in t && '>' !in t {
      EachUnchanged(t);
    }
  }

  lemma {:induction false} TagEnds(inside: string, rest: string)
    requires '>' !in inside
    ensures TagLength(inside + ">" + rest) == |inside| + 1
  {
    if inside != "" {
      assert (inside + ">" + rest)[1..] == inside[1..] + ">" + rest;
      TagEnds(inside[1..], rest);
    }
  }

  lemma ShownTag(inside: string, rest: string)
    requires '>' !in inside
    ensures Shown("<" + inside + ">" + rest) == Shown(rest)
  {
    var h := "<" + inside + ">" + rest;
    assert h[1..] == inside + ">" + rest;
    TagEnds(inside, rest);
    assert h[1 + (|inside| + 1)..] == rest;
  }

  lemma ClassHasNoBracket(k: Kind)
    ensures '>' !in ClassOf(k)
  {
  }

  /** A token's HTML shows as its text, whatever its type. */
  lemma ShownToken(k: Kind, text: string, rest: string)
    ensures Shown(HtmlOf(k, text) + rest) == text + Shown(rest)
  {
    hide Shown, EscHtml, ClassOf;
    if ClassOf(k) == "" {
      ShownEsc(text, rest);
    } else {
      var cls := ClassOf(k);
      ClassHasNoBracket(k);
      var inside := "span class=\"" + cls + "\"";
      var after := "</span>" + rest;
      SpanHasNoBracket(cls);
      ShownTag(inside, EscHtml(text) + after);
      assert HtmlOf(k, text) + rest == "<" + inside + ">" + (EscHtml(text) + after);
      ShownEsc(text, after);
      ShownTag("/span", rest);
      assert "<" + "/span" + ">" + rest == after;
    }
  }

  lemma SpanHasNoBracket(cls: string)
    requires '>' !in cls
    ensures '>' !in "span class=\"" + cls + "\""
  {
  }

  /** Stripping the tags of rendered tokens and undoing the escapes gives back their texts. */
  lemma {:induction false} ShownRendered(ps: seq<Piece>, rest: string)
    ensures Shown(RenderedOf(ps) + rest) == Concat(ps) + Shown(rest)
  {
    hide Shown, HtmlOf;
    if ps == [] {
      assert RenderedOf(ps) + rest == rest;
    } else {
      var after := RenderedOf(ps[1..]) + rest;
      assert RenderedOf(ps) + rest == HtmlOf(ps[0].kind, ps[0].text) + after;
      ShownToken(ps[0].kind, ps[0].text, after);
      ShownRendered(ps[1..], rest);
      assert ps[0].text + (Concat(ps[1..]) + Shown(rest)) == Concat(ps) + Shown(rest);
    }
  }

  lemma {:induction false} SameTexts(ps: seq<Piece>, qs: seq<Piece>)
    requires |ps| == |qs| && forall i :: 0 <= i < |ps| ==> ps[i].text == qs[i].text
    ensures Concat(ps) == Concat(qs)
  {
    if ps != [] {
      SameTexts(ps[1..], qs[1..]);
    }
  }

  /** For every text, the HTML is its only list of tokens, annotated and rendered, and shows exactly the text. */
  method HighlightPat(w: Words, text: string) returns (html: string)
    ensures exists ps :: Lexed(w, ps) && Concat(ps) == text && html == RenderedOf(Annotated(ps))
    ensures Shown(html) == text
  {
    hide Shown, Lexed, NamedKind, Turned, RenderedOf;
    var tokens := Tokenize(w, text);
    ghost var ps := View(tokens);
    Annotate(w, tokens);
    html := RenderHtml(tokens);
    SameTexts(ps, Annotated(ps));
    ShownRendered(Annotated(ps), "");
    ShownNothing();
    assert html + "" == html && text + "" == text;
  }

  lemma ShownNothing()
    ensures Shown("") == ""
  {
  }
}
