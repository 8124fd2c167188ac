/** Ratbot trivia files (internal/api/handlers_palace_preferences_extras.go): one question a line, its
    four answers after markers A. to D., the right one starred. */
module Trivia {
  import opened Wrappers
  import opened Bytes

  datatype Question = Question(question: bytes, options: seq<bytes>, correct: byte)

  /** What a caller submits: any number of answers, any text for the right one. */
  datatype Submitted = Submitted(question: bytes, options: seq<bytes>, correct: bytes)

  predicate IsLetter(c: byte) {
    'A' <= c <= 'D'
  }

  /** A trimmed, non-empty text. */
  predicate IsField(s: bytes) {
    s != "" && Trim(s) == s
  }

  /** What validation lets through. */
  predicate Valid(q: Question) {
    && IsField(q.question) && IsLetter(q.correct) && |q.options| == 4
    && forall i :: 0 <= i < 4 ==> IsField(q.options[i])
  }

  predicate AllValid(qs: seq<Question>) {
    forall i :: 0 <= i < |qs| ==> Valid(qs[i])
  }

  // ---------- Validation ----------

  datatype QuestionError = EmptyQuestion | NotFourAnswers | EmptyAnswer | BadCorrect

  datatype Checked = Good(q: Question) | Bad(error: QuestionError)

  function Check(s: Submitted): (r: Checked)
    ensures r.Good? ==> Valid(r.q)
  {
    hide Trim;
    var question := Trim(s.question);
    if question == "" then Bad(EmptyQuestion)
    else if |s.options| != 4 then Bad(NotFourAnswers)
    else if Trim(s.options[0]) == "" || Trim(s.options[1]) == "" || Trim(s.options[2]) == "" || Trim(s.options[3]) == ""
    then Bad(EmptyAnswer)
    else
      var correct := ToUpper(Trim(s.correct));
      if |correct| != 1 || !IsLetter(correct[0]) then Bad(BadCorrect)
      else
        TrimTwice(s.question);
        TrimTwice(s.options[0]);
        TrimTwice(s.options[1]);
        TrimTwice(s.options[2]);
        TrimTwice(s.options[3]);
        Good(Question(question, [Trim(s.options[0]), Trim(s.options[1]), Trim(s.options[2]), Trim(s.options[3])], correct[0]))
  }

  datatype Validation = Validated(qs: seq<Question>) | Refused(index: nat, error: QuestionError)

  /** The first bad question decides. */
  function CheckAll(ss: seq<Submitted>, i: nat): Validation
    requires i <= |ss|
    decreases |ss| - i
  {
    if i == |ss| then Validated([])
    else
      match Check(ss[i])
      case Bad(e) => Refused(i, e)
      case Good(q) =>
        match CheckAll(ss, i + 1)
        case Refused(j, e) => Refused(j, e)
        case Validated(qs) => Validated([q] + qs)
  }

  method ValidateTriviaQuestions(ss: seq<Submitted>) returns (r: Validation)
    ensures r == CheckAll(ss, 0)
    ensures r.Validated? ==> AllValid(r.qs) && |r.qs| == |ss|
  {
    hide Check, CheckAll, Valid, Prepended;
    var out: seq<Question> := [];
    NothingChecked(ss);
    for i := 0 to |ss|
      invariant |out| == i && AllValid(out)
      invariant CheckAll(ss, 0) == Prepended(out, CheckAll(ss, i))
    {
      var c := CheckQuestion(ss[i]);
      CheckStep(ss, i, out);
      if c.Bad? {
        return Refused(i, c.error);
      }
      out := out + [c.q];
    }
    AllChecked(ss, out);
    return Validated(out);
  }

  lemma NothingChecked(ss: seq<Submitted>)
    ensures CheckAll(ss, 0) == Prepended([], CheckAll(ss, 0))
  {
    hide Check;
    var r := CheckAll(ss, 0);
    if r.Validated? {
      assert [] + r.qs == r.qs;
    }
  }

  lemma CheckStep(ss: seq<Submitted>, i: nat, out: seq<Question>)
    requires i < |ss|
    ensures Prepended(out, CheckAll(ss, i)) ==
            match Check(ss[i])
            case Bad(e) => Refused(i, e)
            case Good(q) => Prepended(out + [q], CheckAll(ss, i + 1))
  {
    hide Check;
    var rest := CheckAll(ss, i + 1);
    if Check(ss[i]).Good? && rest.Validated? {
      assert out + ([Check(ss[i]).q] + rest.qs) == out + [Check(ss[i]).q] + rest.qs;
    }
  }

  lemma AllChecked(ss: seq<Submitted>, out: seq<Question>)
    ensures Prepended(out, CheckAll(ss, |ss|)) == Validated(out)
  {
    hide Check;
    assert out + [] == out;
  }

  /** The validated questions so far, before the rest. */
  ghost function Prepended(out: seq<Question>, r: Validation): Validation {
    match r
    case Refused(_, _) => r
    case Validated(qs) => Validated(out + qs)
  }

  method CheckQuestion(s: Submitted) returns (c: Checked)
    ensures c == Check(s)
    ensures c.Good? ==> Valid(c.q)
  {
    hide Trim, Valid;
    var question := Trim(s.question);
    if question == "" {
      return Bad(EmptyQuestion);
    }
    if |s.options| != 4 {
      return Bad(NotFourAnswers);
    }
    var opts: seq<bytes> := [];
    for j := 0 to 4
      invariant |opts| == j && forall i :: 0 <= i < j ==> opts[i] == Trim(s.options[i]) && opts[i] != ""
    {
      var opt := Trim(s.options[j]);
      if opt == "" {
        return Bad(EmptyAnswer);
      }
      opts := opts + [opt];
    }
    var correct := ToUpper(Trim(s.correct));
    if correct != "A" && correct != "B" && correct != "C" && correct != "D" {
      return Bad(BadCorrect);
    }
    assert opts == [Trim(s.options[0]), Trim(s.options[1]), Trim(s.options[2]), Trim(s.options[3])];
    return Good(Question(question, opts, correct[0]));
  }

  // ---------- Rendering ----------

  const TITLE: bytes := "# Ratbot trivia file"
  const FORMAT: bytes := "# Format: Q. question A. one " + "*B. correct C. three D. four"

  function Letter(i: nat): byte
    requires i < 4
  {
    ('A' as int + i) as char
  }

  function MarkText(q: Question, i: nat): bytes
    requires i < 4
  {
    (if Letter(i) == q.correct then "*" else "") + [Letter(i)] + "."
  }

  /** The answers from the i-th on. */
  function Answers(q: Question, i: nat): bytes
    requires i <= 4 && |q.options| == 4
    decreases 4 - i
  {
    if i == 4 then "" else " " + MarkText(q, i) + " " + q.options[i] + Answers(q, i + 1)
  }

  function Line(q: Question): bytes
    requires |q.options| == 4
  {
    "Q. " + q.question + Answers(q, 0)
  }

  function QuestionLines(qs: seq<Question>): (r: seq<bytes>)
    requires AllValid(qs)
    ensures |r| == |qs| && forall i :: 0 <= i < |qs| ==> r[i] == Line(qs[i])
  {
    seq(|qs|, i requires 0 <= i < |qs| => Line(qs[i]))
  }

  function Rendered(qs: seq<Question>): bytes
    requires AllValid(qs)
  {
    Unlines([TITLE, FORMAT] + QuestionLines(qs))
  }

  method RenderTriviaQuestions(questions: seq<Question>) returns (b: bytes)
    requires AllValid(questions)
    ensures b == Rendered(questions)
  {
    hide Trim, Unlines, Line;
    b := TITLE + "\n";
    b := b + FORMAT + "\n";
    HeaderLines();
    for k := 0 to |questions|
      invariant b == Unlines([TITLE, FORMAT] + QuestionLines(questions)[..k])
    {
      ghost var before := b;
      var q := questions[k];
      var line := RenderLine(q);
      b := b + line + "\n";
      LineAdded([TITLE, FORMAT] + QuestionLines(questions)[..k], Line(q));
      assert [TITLE, FORMAT] + QuestionLines(questions)[..k] + [Line(q)] == [TITLE, FORMAT] + QuestionLines(questions)[..k + 1];
    }
    assert QuestionLines(questions)[..|questions|] == QuestionLines(questions);
  }

  lemma HeaderLines()
    ensures Unlines([TITLE, FORMAT] + []) == TITLE + "\n" + FORMAT + "\n"
  {
    hide TITLE, FORMAT;
    TwoLines(TITLE, FORMAT);
    var ls: seq<bytes> := [TITLE, FORMAT];
    assert ls + [] == ls;
  }

  lemma TwoLines(a: bytes, b: bytes)
    ensures Unlines([a, b]) == a + "\n" + b + "\n"
  {
    var ls: seq<bytes> := [a, b];
    assert ls[1..] == [b] && ls[1..][1..] == [];
    assert Unlines(ls[1..]) == b + "\n" + Unlines([]) == b + "\n";
    assert a + "\n" + (b + "\n") == a + "\n" + b + "\n";
  }

  lemma LineAdded(ls: seq<bytes>, line: bytes)
    ensures Unlines(ls + [line]) == Unlines(ls) + line + "\n"
  {
    UnlinesAppend(ls, [line]);
    var one: seq<bytes> := [line];
    assert one[1..] == [];
    assert Unlines(one) == line + "\n" + Unlines([]) == line + "\n";
    assert Unlines(ls) + (line + "\n") == Unlines(ls) + line + "\n";
  }

  /** The line of one question, without its line end. */
  method RenderLine(q: Question) returns (b: bytes)
    requires Valid(q)
    ensures b == Line(q)
  {
    hide Trim, Answers, MarkText;
    var correctIdx := q.correct as int - 'A' as int;
    b := "Q. ";
    b := b + Trim(q.question);
    for i := 0 to 4
      invariant b + Answers(q, i) == Line(q)
    {
      ghost var before := b;
      AnswersStep(q, i, before);
      b := b + " ";
      var letter := [Letter(i)];
      if i == correctIdx {
        b := b + "*";
      }
      b := b + letter;
      b := b + ". ";
      b := b + Trim(q.options[i]);
      assert b == before + " " + (if i == correctIdx then "*" else "") + letter + ". " + q.options[i];
    }
    NoAnswers(q, b);
  }

  lemma AnswersStep(q: Question, i: nat, before: bytes)
    requires i < 4 && |q.options| == 4
    ensures before + Answers(q, i) == before + " " + (if i == q.correct as int - 'A' as int then "*" else "")
                                      + [Letter(i)] + ". " + q.options[i] + Answers(q, i + 1)
  {
    var star := if Letter(i) == q.correct then "*" else "";
    assert Answers(q, i) == " " + (star + [Letter(i)] + ".") + " " + q.options[i] + Answers(q, i + 1);
  }

  lemma NoAnswers(q: Question, b: bytes)
    requires |q.options| == 4
    ensures b + Answers(q, 4) == b
  {
  }

  // ---------- Parsing one line ----------

  datatype Marker = Marker(pos: nat, letter: byte, correct: bool)

  /** unicode.IsSpace of a single byte taken as a code point. */
  predicate IsLatinSpace(c: byte) {
    IsSpace(c) || c as int == 0x85 || c as int == 0xA0
  }

  predicate IsStarred(t: bytes, i: nat)
    requires i < |t|
  {
    t[i] == '*' && i + 2 < |t| && IsLetter(t[i + 1]) && t[i + 2] == '.'
  }

  predicate IsPlain(t: bytes, i: nat)
    requires i < |t|
  {
    IsLetter(t[i]) && i + 1 < |t| && t[i + 1] == '.'
  }

  /** A marker stands at the start or after white space. */
  predicate IsMarker(t: bytes, i: nat)
    requires i < |t|
  {
    (IsStarred(t, i) || IsPlain(t, i)) && (i == 0 || IsLatinSpace(t[i - 1]))
  }

  function MarkerAt(t: bytes, i: nat): Marker
    requires i < |t| && IsMarker(t, i)
  {
    if IsStarred(t, i) then Marker(i, t[i + 1], true) else Marker(i, t[i], false)
  }

  /** The markers from position a up to b. */
  function Markers(t: bytes, a: nat, b: nat): seq<Marker>
    requires a <= b <= |t|
    decreases b - a
  {
    if a == b then []
    else if IsMarker(t, a) then [MarkerAt(t, a)] + Markers(t, a + 1, b)
    else Markers(t, a + 1, b)
  }

  /** Markers of t between a and b, in order. */
  ghost predicate InOrder(t: bytes, a: nat, b: nat, ms: seq<Marker>)
    requires b <= |t|
  {
    && (forall k :: 0 <= k < |ms| ==> a <= ms[k].pos < b && IsMarker(t, ms[k].pos) && ms[k] == MarkerAt(t, ms[k].pos))
    && (forall j, k :: 0 <= j < k < |ms| ==> ms[j].pos < ms[k].pos)
  }

  /** The list of markers is what it says: all of them, in order. */
  lemma {:induction false} MarkersMeaning(t: bytes, a: nat, b: nat)
    requires a <= b <= |t|
    ensures InOrder(t, a, b, Markers(t, a, b))
    ensures forall i :: a <= i < b && IsMarker(t, i) ==> MarkerAt(t, i) in Markers(t, a, b)
    decreases b - a
  {
    hide IsMarker, InOrder;
    if a < b {
      MarkersMeaning(t, a + 1, b);
      var rest := Markers(t, a + 1, b);
      InOrderLater(t, a, b, rest);
    } else {
      NothingInOrder(t, a, b);
    }
  }

  lemma NothingInOrder(t: bytes, a: nat, b: nat)
    requires b <= |t|
    ensures InOrder(t, a, b, [])
  {
  }

  lemma InOrderLater(t: bytes, a: nat, b: nat, rest: seq<Marker>)
    requires a < b <= |t| && InOrder(t, a + 1, b, rest)
    ensures InOrder(t, a, b, rest)
    ensures IsMarker(t, a) ==> InOrder(t, a, b, [MarkerAt(t, a)] + rest)
  {
    hide IsMarker;
  }

  function Skip(m: Marker): nat {
    if m.correct then 3 else 2
  }

  /** The position where the text of the k-th marker ends. */
  function EndOf(t: bytes, ms: seq<Marker>, k: nat): nat
    requires k < |ms|
  {
    if k + 1 < |ms| then ms[k + 1].pos else |t|
  }

  /** Markers of one text in order, each with room for itself. */
  predicate Spaced(t: bytes, ms: seq<Marker>) {
    forall k :: 0 <= k < |ms| ==> ms[k].pos + Skip(ms[k]) <= EndOf(t, ms, k) <= |t| && IsLetter(ms[k].letter)
  }

  function TextOf(t: bytes, ms: seq<Marker>, k: nat): bytes
    requires k < |ms| && Spaced(t, ms)
  {
    Trim(t[ms[k].pos + Skip(ms[k])..EndOf(t, ms, k)])
  }

  /** The answer a letter has after the first n markers: the last of them with that letter decides. */
  function AnswerAt(t: bytes, ms: seq<Marker>, n: nat, letter: byte): bytes
    requires n <= |ms| && Spaced(t, ms)
  {
    if n == 0 then ""
    else if ms[n - 1].letter == letter then TextOf(t, ms, n - 1)
    else AnswerAt(t, ms, n - 1, letter)
  }

  /** The letter of the last starred marker among the first n. */
  function CorrectAt(ms: seq<Marker>, n: nat): Option<byte>
    requires n <= |ms|
  {
    if n == 0 then None
    else if ms[n - 1].correct then Some(ms[n - 1].letter)
    else CorrectAt(ms, n - 1)
  }

  function AnswersAt(t: bytes, ms: seq<Marker>, n: nat): (r: seq<bytes>)
    requires n <= |ms| && Spaced(t, ms)
    ensures |r| == 4
  {
    [AnswerAt(t, ms, n, 'A'), AnswerAt(t, ms, n, 'B'), AnswerAt(t, ms, n, 'C'), AnswerAt(t, ms, n, 'D')]
  }

  /** The question in the text after Q. */
  function ParsedRest(t: bytes): Option<Question> {
    var ms := Markers(t, 0, |t|);
    MarkersSpaced(t);
    MarkersMeaning(t, 0, |t|);
    if |ms| < 2 then None
    else
      var question := Trim(t[..ms[0].pos]);
      var options := AnswersAt(t, ms, |ms|);
      var correct := CorrectAt(ms, |ms|);
      if question == "" || correct.None? || "" in options then None
      else Some(Question(question, options, correct.value))
  }

  predicate IsQuestionLine(line: bytes) {
    |line| >= 3 && (line[0] == 'Q' || line[0] == 'q') && line[1] == '.'
  }

  function ParsedLine(given: bytes): Option<Question> {
    var line := Trim(given);
    if IsQuestionLine(line) then ParsedRest(line[2..]) else None
  }

  /** A marker's own bytes hold no other marker, so its text never ends before it starts. */
  lemma MarkersSpaced(t: bytes)
    ensures Spaced(t, Markers(t, 0, |t|))
  {
    hide Markers, IsMarker, MarkerAt;
    MarkersMeaning(t, 0, |t|);
    var ms := Markers(t, 0, |t|);
    forall k | 0 <= k < |ms| ensures ms[k].pos + Skip(ms[k]) <= EndOf(t, ms, k) <= |t| && IsLetter(ms[k].letter) {
      assert IsMarker(t, ms[k].pos) && ms[k] == MarkerAt(t, ms[k].pos);
      MarkerFits(t, ms[k].pos);
      if k + 1 < |ms| {
        MarkersApart(t, ms[k].pos, ms[k + 1].pos);
      }
    }
  }

  lemma MarkerFits(t: bytes, i: nat)
    requires i < |t| && IsMarker(t, i)
    ensures i + Skip(MarkerAt(t, i)) <= |t| && IsLetter(MarkerAt(t, i).letter)
  {
  }

  lemma MarkersApart(t: bytes, i: nat, j: nat)
    requires i < j < |t| && IsMarker(t, i) && IsMarker(t, j)
    ensures i + Skip(MarkerAt(t, i)) <= j
  {
    assert IsLatinSpace(t[j - 1]);
  }

  method ParseTriviaLine(given: bytes) returns (r: Option<Question>)
    ensures r == ParsedLine(given)
  {
    hide Trim, IsMarker, ParsedRest;
    var line := Trim(given);
    if |line| == 0 || line[0] == '#' {
      return None;
    }
    if |line| < 3 || !EqualFold(line[..2], "Q.") {
      QuestionPrefix(line);
      return None;
    }
    QuestionPrefix(line);
    r := ParseRest(line[2..]);
  }

  lemma QuestionPrefix(line: bytes)
    requires |line| >= 1 && line[0] != '#'
    ensures IsQuestionLine(line) <==> |line| >= 3 && EqualFold(line[..2], "Q.")
  {
    if |line| >= 3 {
      var a, b := ToLower(line[..2]), ToLower("Q.");
      assert a[0] == Lower(line[0]) && a[1] == Lower(line[1]) && b[0] == 'q' && b[1] == '.';
      assert a == b <==> a[0] == b[0] && a[1] == b[1];
    }
  }

  lemma NoMarkers(t: bytes)
    ensures Markers(t, |t|, |t|) == []
  {
  }

  lemma ScanStep(t: bytes, i: nat, before: seq<Marker>)
    requires i < |t|
    ensures before + Markers(t, i, |t|) ==
            (if IsMarker(t, i) then before + [MarkerAt(t, i)] else before) + Markers(t, i + 1, |t|)
  {
    hide IsMarker, MarkerAt;
    if IsMarker(t, i) {
      assert before + ([MarkerAt(t, i)] + Markers(t, i + 1, |t|)) == before + [MarkerAt(t, i)] + Markers(t, i + 1, |t|);
    }
  }

  /** The marker scan. */
  method ScanMarkers(rest: bytes) returns (markers: seq<Marker>)
    ensures markers == Markers(rest, 0, |rest|)
  {
    hide Markers;
    markers := [];
    NoMarkers(rest);
    for i := 0 to |rest|
      invariant markers + Markers(rest, i, |rest|) == Markers(rest, 0, |rest|)
    {
      ScanStep(rest, i, markers);
      var c := rest[i];
      var letter: byte := '\0';
      var corr := false;
      if c == '*' && i + 2 < |rest| && 'A' <= rest[i + 1] <= 'D' && rest[i + 2] == '.' {
        letter := rest[i + 1];
        corr := true;
      } else if 'A' <= c <= 'D' && i + 1 < |rest| && rest[i + 1] == '.' {
        letter := c;
      } else {
        continue;
      }
      if i > 0 && !IsLatinSpace(rest[i - 1]) {
        continue;
      }
      markers := markers + [Marker(i, letter, corr)];
    }
  }

  method ParseRest(rest: bytes) returns (r: Option<Question>)
    ensures r == ParsedRest(rest)
  {
    hide Trim, IsMarker, Markers, EndOf;
    var markers := ScanMarkers(rest);
    MarkersSpaced(rest);
    if |markers| < 2 {
      return None;
    }
    MarkersMeaning(rest, 0, |rest|);
    var qtext := Trim(rest[..markers[0].pos]);
    if qtext == "" {
      return None;
    }
    var options: seq<bytes> := ["", "", "", ""];
    var correct: Option<byte> := None;
    for i := 0 to |markers|
      invariant options == AnswersAt(rest, markers, i)
      invariant correct == CorrectAt(markers, i)
    {
      var m := markers[i];
      var skip := if m.correct then 3 else 2;
      var start := m.pos + skip;
      var end := EndOf(rest, markers, i);
      assert start <= end <= |rest| && IsLetter(m.letter);
      var idx := m.letter as int - 'A' as int;
      options := options[idx := Trim(rest[start..end])];
      LetterUpdates(rest, markers, i, idx);
      if m.correct {
        correct := Some(m.letter);
      }
    }
    if correct.None? {
      return None;
    }
    for k := 0 to 4
      invariant forall j :: 0 <= j < k ==> options[j] != ""
    {
      if Trim(options[k]) == "" {
        AnswerTrimmed(rest, markers, |markers|, Letter(k));
        assert options[k] == "";
        return None;
      }
      TrimEmpty(options[k]);
    }
    return Some(Question(qtext, options, correct.value));
  }

  lemma TrimEmpty(s: bytes)
    requires Trim(s) != ""
    ensures s != ""
  {
  }

  lemma {:induction false} AnswerTrimmed(t: bytes, ms: seq<Marker>, n: nat, letter: byte)
    requires n <= |ms| && Spaced(t, ms)
    ensures Trim(AnswerAt(t, ms, n, letter)) == AnswerAt(t, ms, n, letter)
  {
    hide Trim;
    if n == 0 {
      TrimFixed("");
    } else if ms[n - 1].letter == letter {
      TrimTwice(t[ms[n - 1].pos + Skip(ms[n - 1])..EndOf(t, ms, n - 1)]);
    } else {
      AnswerTrimmed(t, ms, n - 1, letter);
    }
  }

  lemma LetterUpdates(t: bytes, ms: seq<Marker>, i: nat, idx: nat)
    requires i < |ms| && Spaced(t, ms) && idx == ms[i].letter as int - 'A' as int && idx < 4
    ensures AnswersAt(t, ms, i + 1) == AnswersAt(t, ms, i)[idx := TextOf(t, ms, i)]
  {
    hide TextOf;
  }

  // ---------- Parsing a file ----------

  datatype Parsed = Parsed(qs: seq<Question>, bad: nat)

  /** Blank lines and comments do not count as bad. */
  predicate IsIgnored(line: bytes) {
    Trim(line) == "" || Trim(line)[0] == '#'
  }

  function ParsedLines(ls: seq<bytes>): Parsed {
    if ls == [] then Parsed([], 0)
    else
      var rest := ParsedLines(ls[1..]);
      match ParsedLine(ls[0])
      case Some(q) => Parsed([q] + rest.qs, rest.bad)
      case None => if IsIgnored(ls[0]) then rest else Parsed(rest.qs, rest.bad + 1)
  }

  function ParsedFile(content: bytes): Parsed {
    ParsedLines(Lines(DropCr(content)))
  }

  method ParseTriviaQuestions(content: bytes) returns (out: seq<Question>, bad: nat)
    ensures Parsed(out, bad) == ParsedFile(content)
  {
    hide Trim, ParsedLine, Lines, DropCr;
    var lines := Lines(DropCr(content));
    out, bad := [], 0;
    for i := 0 to |lines|
      invariant var rest := ParsedLines(lines[i..]); Parsed(out + rest.qs, bad + rest.bad) == ParsedFile(content)
    {
      assert lines[i..][0] == lines[i] && lines[i..][1..] == lines[i + 1..];
      ghost var rest := ParsedLines(lines[i + 1..]);
      var q := ParseTriviaLine(lines[i]);
      if q.Some? {
        assert out + ([q.value] + rest.qs) == out + [q.value] + rest.qs;
        out := out + [q.value];
        continue;
      }
      var line := Trim(lines[i]);
      if line != "" && line[0] != '#' {
        bad := bad + 1;
      }
    }
    assert out + [] == out;
  }
}
