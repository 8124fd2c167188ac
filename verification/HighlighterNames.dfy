/** Which words the highlighter colours as names, told by the nesting of the blocks around them. */
module HighlighterNames {
  import opened Highlighter

  const OPEN := Piece("{", Bracket)
  const CLOSE := Piece("}", Bracket)

  // ---------- Nesting ----------

  /** A token that is no brace, or a block. */
  datatype Group = Leaf(p: Piece) | Block(inner: seq<Group>)

  function Flat(gs: seq<Group>): seq<Piece> {
    if gs == [] then []
    else
      (match gs[0]
       case Leaf(p) => [p]
       case Block(inner) => [OPEN] + Flat(inner) + [CLOSE])
      + Flat(gs[1..])
  }

  predicate Nested(gs: seq<Group>) {
    gs != [] ==>
      && (match gs[0]
          case Leaf(p) => p != OPEN && p != CLOSE
          case Block(inner) => Nested(inner))
      && Nested(gs[1..])
  }

  predicate BraceFree(ps: seq<Piece>) {
    OPEN !in ps && CLOSE !in ps
  }

  /** Blocks that are still open, each with what it holds so far. */
  function Unclosed(levels: seq<seq<Group>>): seq<Piece> {
    if levels == [] then []
    else Unclosed(levels[..|levels| - 1]) + [OPEN] + Flat(levels[|levels| - 1])
  }

  lemma DepthPrefix(a: seq<Piece>, b: seq<Piece>, n: nat)
    requires n <= |a|
    ensures Depth(a + b, n) == Depth(a, n)
  {
    if n > 0 {
      assert (a + b)[n - 1] == a[n - 1];
      DepthPrefix(a, b, n - 1);
    }
  }

  /** The depth after all of the tokens. */
  function EndDepth(ps: seq<Piece>): nat {
    Depth(ps, |ps|)
  }

  lemma NoDepth()
    ensures EndDepth([]) == 0
  {
  }

  /** One more token. */
  lemma DepthNext(a: seq<Piece>, p: Piece)
    ensures EndDepth(a + [p]) ==
            if p == OPEN then EndDepth(a) + 1 else if p == CLOSE && EndDepth(a) > 0 then EndDepth(a) - 1 else EndDepth(a)
  {
    hide Depth;
    DepthPrefix(a, [p], |a|);
    DepthOne(a + [p], |a|);
  }

  lemma DepthOne(ps: seq<Piece>, n: nat)
    requires n < |ps|
    ensures var d := Depth(ps, n);
            Depth(ps, n + 1) == if ps[n] == OPEN then d + 1 else if ps[n] == CLOSE && d > 0 then d - 1 else d
  {
  }

  lemma Regroup<T>(a: seq<T>, b: seq<T>, c: seq<T>, d: seq<T>, e: seq<T>)
    ensures a + (b + c + d + e) == a + b + c + d + e
    ensures d == [] && e == [] ==> b + c + d + e == b + c && a + b + c + d + e == a + b + c
    ensures e == [] ==> b + c + d + e == b + c + d && a + b + c + d + e == a + b + c + d
  {
  }

  lemma FlatStep(a: seq<Piece>, gs: seq<Group>)
    requires gs != []
    ensures a + Flat(gs) ==
            match gs[0]
            case Leaf(p) => a + [p] + Flat(gs[1..])
            case Block(inner) => a + [OPEN] + Flat(inner) + [CLOSE] + Flat(gs[1..])
  {
    if gs[0].Block? {
      Regroup(a, [OPEN], Flat(gs[0].inner), [CLOSE], Flat(gs[1..]));
    } else {
      Regroup(a, [gs[0].p], Flat(gs[1..]), [], []);
    }
  }

  lemma FlatNothing(a: seq<Piece>)
    ensures a + Flat([]) == a
  {
  }

  /** Whole blocks leave the depth as it is. */
  lemma {:induction false} BlocksBalance(a: seq<Piece>, gs: seq<Group>)
    requires Nested(gs)
    ensures EndDepth(a + Flat(gs)) == EndDepth(a)
    decreases gs
  {
    hide EndDepth, Flat;
    if gs == [] {
      FlatNothing(a);
    } else {
      FlatStep(a, gs);
      match gs[0] {
        case Leaf(p) =>
          DepthNext(a, p);
          BlocksBalance(a + [p], gs[1..]);
        case Block(inner) =>
          var b := a + [OPEN];
          var c := b + Flat(inner);
          DepthNext(a, OPEN);
          BlocksBalance(b, inner);
          DepthNext(c, CLOSE);
          BlocksBalance(c + [CLOSE], gs[1..]);
      }
    }
  }

  lemma UnclosedStep(a: seq<Piece>, levels: seq<seq<Group>>)
    requires levels != []
    ensures a + Unclosed(levels) == a + Unclosed(levels[..|levels| - 1]) + [OPEN] + Flat(levels[|levels| - 1])
  {
    hide Flat;
    var u, f := Unclosed(levels[..|levels| - 1]), Flat(levels[|levels| - 1]);
    Regroup(a, u, [OPEN], f, []);
  }

  lemma {:induction false} UnclosedDepth(pre: seq<Group>, levels: seq<seq<Group>>)
    requires Nested(pre) && forall i :: 0 <= i < |levels| ==> Nested(levels[i])
    ensures EndDepth(Flat(pre) + Unclosed(levels)) == |levels|
    decreases |levels|
  {
    hide EndDepth, Flat, Nested;
    if levels == [] {
      assert Flat(pre) + Unclosed(levels) == [] + Flat(pre);
      BlocksBalance([], pre);
      NoDepth();
    } else {
      hide Unclosed;
      var n := |levels| - 1;
      UnclosedDepth(pre, levels[..n]);
      UnclosedStep(Flat(pre), levels);
      var lead := Flat(pre) + Unclosed(levels[..n]);
      DepthNext(lead, OPEN);
      BlocksBalance(lead + [OPEN], levels[n]);
    }
  }

  // ---------- Names ----------

  /** An event name or a control word. */
  predicate IsHandlerWord(p: Piece) {
    p.kind == Event || p.kind == Control
  }

  predicate HandlerFree(ps: seq<Piece>) {
    forall i :: 0 <= i < |ps| ==> !IsHandlerWord(ps[i])
  }

  /** Ends with a brace, unless it is empty. */
  predicate EndsAtBrace(lead: seq<Piece>) {
    lead == [] || lead[|lead| - 1] == OPEN || lead[|lead| - 1] == CLOSE
  }

  /** What the words between a brace, or the start, and the next opening brace become: room names outside every
      block, section names inside one block, unless an event name or control word is among them. */
  lemma NameTold(pre: seq<Group>, levels: seq<seq<Group>>, front: seq<Piece>, w: Piece, mid: seq<Piece>, post: seq<Piece>)
    requires Nested(pre) && forall i :: 0 <= i < |levels| ==> Nested(levels[i])
    requires BraceFree(front) && BraceFree([w]) && BraceFree(mid) && EndsAtBrace(Flat(pre) + Unclosed(levels))
    ensures var lead := Flat(pre) + Unclosed(levels);
            var stretch := front + [w] + mid;
            NamedKind(lead + stretch + [OPEN] + post, |lead| + |front|) ==
            if w.kind !in {Variable, Str, Number} || !HandlerFree(stretch) then w.kind
            else if |levels| == 0 then RoomName
            else if |levels| == 1 then SectionName
            else w.kind
  {
    hide Depth, Flat, Unclosed, HandlerBefore, HandlerFree;
    var lead, stretch := Flat(pre) + Unclosed(levels), front + [w] + mid;
    var ps := lead + stretch + [OPEN] + post;
    var i, b := |lead| + |front|, |lead| + |stretch|;
    UnclosedDepth(pre, levels);
    DepthPrefix(lead, stretch + [OPEN] + post, |lead|);
    assert lead + (stretch + [OPEN] + post) == ps;
    StretchBraceFree(lead, stretch, post);
    DepthKept(ps, |lead|, b);
    assert OpensAfter(ps, i, b);
    NamedAtOpening(ps, i, b);
    StretchHandlers(lead, stretch, post);
    assert ps[i] == w;
  }

  lemma StretchBraceFree(lead: seq<Piece>, stretch: seq<Piece>, post: seq<Piece>)
    requires BraceFree(stretch)
    ensures var ps := lead + stretch + [OPEN] + post;
            NoBrace(ps, |lead|, |lead| + |stretch|) && Opens(ps[|lead| + |stretch|])
  {
    var ps := lead + stretch + [OPEN] + post;
    assert forall k :: |lead| <= k < |lead| + |stretch| ==> ps[k] == stretch[k - |lead|];
  }

  lemma HandlerInStretch(lead: seq<Piece>, stretch: seq<Piece>, post: seq<Piece>, k: nat)
    requires EndsAtBrace(lead) && k < |lead| + |stretch|
    requires var ps := lead + stretch + [OPEN] + post; NoBrace(ps, k, |lead| + |stretch|) && Handles(ps[k].kind)
    ensures !HandlerFree(stretch)
  {
    var ps := lead + stretch + [OPEN] + post;
    assert lead != [] ==> ps[|lead| - 1] == lead[|lead| - 1];
    assert |lead| <= k && ps[k] == stretch[k - |lead|];
  }

  lemma StretchHandlers(lead: seq<Piece>, stretch: seq<Piece>, post: seq<Piece>)
    requires BraceFree(stretch) && EndsAtBrace(lead)
    ensures HandlerBefore(lead + stretch + [OPEN] + post, |lead| + |stretch|) <==> !HandlerFree(stretch)
  {
    hide NoBrace, BraceFree;
    var ps, b := lead + stretch + [OPEN] + post, |lead| + |stretch|;
    StretchBraceFree(lead, stretch, post);
    if HandlerBefore(ps, b) {
      var k :| 0 <= k < b && NoBrace(ps, k, b) && Handles(ps[k].kind);
      HandlerInStretch(lead, stretch, post, k);
    }
    if !HandlerFree(stretch) {
      var j :| 0 <= j < |stretch| && IsHandlerWord(stretch[j]);
      assert ps[|lead| + j] == stretch[j];
      LaterStretch(ps, |lead|, b, |lead| + j);
    }
  }

  lemma LaterStretch(ps: seq<Piece>, lo: nat, hi: nat, k: nat)
    requires lo <= k <= hi <= |ps| && NoBrace(ps, lo, hi)
    ensures NoBrace(ps, k, hi)
  {
  }

  /** A word before a closing brace, or before none, keeps its type. */
  lemma NoNameTold(before: seq<Piece>, w: Piece, mid: seq<Piece>, post: seq<Piece>)
    requires BraceFree([w]) && BraceFree(mid) && (post == [] || post[0] == CLOSE)
    ensures NamedKind(before + [w] + mid + post, |before|) == w.kind
  {
    hide HandlerBefore, Depth;
    var ps := before + [w] + mid + post;
    var b := |before| + 1 + |mid|;
    assert ps[|before|] == w && forall k :: |before| < k < b ==> ps[k] == mid[k - |before| - 1];
    assert b < |ps| ==> ps[b] == post[0];
    NotNamed(ps, |before|, b);
  }

  /** An ON turns into an event word before white space and an event name, and before nothing else. */
  lemma OnTold(before: seq<Piece>, on: Piece, gap: seq<Piece>, post: seq<Piece>)
    requires on == Piece("ON", Control)
    requires (forall i :: 0 <= i < |gap| ==> gap[i].kind == Ws) && (post != [] ==> post[0].kind != Ws)
    ensures Turned(before + [on] + gap + post)[|before|].kind == if post != [] && post[0].kind == Event then Event else Control
  {
    var ps := before + [on] + gap + post;
    var i, j := |before|, |before| + 1 + |gap|;
    assert ps[i] == on && (forall k :: i < k < j ==> ps[k] == gap[k - i - 1]) && (j < |ps| ==> ps[j] == post[0]);
    OnIsOn();
    if post != [] && post[0].kind == Event {
      assert OnBeforeEvent(ps, i);
    } else {
      NotBeforeEvent(ps, i, j);
    }
  }

  /** Nothing but an ON turns. */
  lemma NothingElseTurns(ps: seq<Piece>, i: nat)
    requires i < |ps| && (ps[i].kind != Control || Upper(ps[i].text) != "ON")
    ensures Turned(ps)[i] == ps[i]
  {
  }

  lemma OnIsOn()
    ensures Upper("ON") == "ON"
  {
  }

  // ---------- Colours ----------

  const COLOURED: seq<Kind> :=
    [Comment, Str, Number, Command, Control, Event, Variable, ExtVar, Operator, Bracket, RoomName, SectionName]

  const COLOURS: seq<string> :=
    ["comment", "string", "number", "command", "control", "event", "variable", "extvar", "operator", "bracket", "room", "section"]

  lemma FirstClasses(i: nat)
    requires i < 6
    ensures |COLOURED| == |COLOURS| == 12 && ClassOf(COLOURED[i]) == "ipt-" + COLOURS[i]
  {
  }

  lemma LastClasses(i: nat)
    requires 6 <= i < 12
    ensures |COLOURED| == |COLOURS| == 12 && ClassOf(COLOURED[i]) == "ipt-" + COLOURS[i]
  {
  }

  lemma ColourCount()
    ensures |COLOURED| == |COLOURS| == 12
  {
  }

  lemma ClassTold(i: nat)
    requires i < 12
    ensures |COLOURED| == |COLOURS| == 12 && ClassOf(COLOURED[i]) == "ipt-" + COLOURS[i] != ""
  {
    hide COLOURED, COLOURS, ClassOf;
    ColourCount();
    if i < 6 {
      FirstClasses(i);
    } else {
      LastClasses(i);
    }
  }

  lemma Wrapped(word: string, t: string)
    ensures "<span class=\"" + ("ipt-" + word) + "\">" + t + "</span>" == "<span class=\"ipt-" + word + "\">" + t + "</span>"
  {
    assert "<span class=\"" + "ipt-" == "<span class=\"ipt-";
    assert "<span class=\"" + ("ipt-" + word) == "<span class=\"" + "ipt-" + word;
  }

  /** A token of a coloured type is wrapped in a span of its colour; white space is only escaped. */
  lemma HtmlTold(t: string, i: nat)
    requires i < 12
    ensures |COLOURED| == |COLOURS| == 12
    ensures RenderedOf([Piece(t, COLOURED[i])]) == "<span class=\"ipt-" + COLOURS[i] + "\">" + EscEach(t) + "</span>"
    ensures RenderedOf([Piece(t, Ws)]) == EscEach(t)
  {
    hide ClassOf, EscHtml, EscEach, COLOURED, COLOURS, RenderedOf;
    EscapedEach(t);
    ClassTold(i);
    OneRendered(Piece(t, COLOURED[i]));
    OneRendered(Piece(t, Ws));
    WsPlain();
    Wrapped(COLOURS[i], EscEach(t));
  }

  lemma EscapedEach(t: string)
    ensures EscHtml(t) == EscEach(t)
  {
    hide EscEach, ReplaceAll;
    EscIsEach(t);
    if '&' !in t && '<' !in t && '>' !in t {
      ReplaceNothing(t, '&', "&amp;");
      ReplaceNothing(t, '<', "&lt;");
      ReplaceNothing(t, '>', "&gt;");
    }
  }

  lemma WsPlain()
    ensures ClassOf(Ws) == ""
  {
  }

  lemma OneRendered(p: Piece)
    ensures RenderedOf([p]) == HtmlOf(p.kind, p.text)
  {
    hide HtmlOf;
    RenderedGrow([], p);
    assert [] + [p] == [p] && RenderedOf([]) == "" && "" + HtmlOf(p.kind, p.text) == HtmlOf(p.kind, p.text);
  }
}
