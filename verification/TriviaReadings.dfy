/** What the trivia reader makes of any line or file, hand-written ones included, and what the validation lets
    through: told by the places of the markers and by the fields. */
module TriviaReadings {
  import opened Wrappers
  import opened Bytes
  import opened Trivia

  // ---------- Markers ----------

  predicate IsWhite(c: byte) {
    c as int in {9, 10, 11, 12, 13, 32, 0x85, 0xA0}
  }

  /** A letter with a full stop, or a star, a letter and a full stop, at the start or after white space. */
  predicate StandsAt(t: bytes, m: Marker) {
    && m.letter in "ABCD"
    && (if m.correct then m.pos + 2 < |t| && t[m.pos..m.pos + 3] == ['*', m.letter, '.']
        else m.pos + 1 < |t| && t[m.pos..m.pos + 2] == [m.letter, '.'])
    && (m.pos > 0 ==> IsWhite(t[m.pos - 1]))
  }

  /** All the markers of a text, in ascending order. */
  ghost predicate AllMarks(t: bytes, ms: seq<Marker>) {
    && (forall m :: m in ms <==> StandsAt(t, m))
    && (forall j, k :: 0 <= j < k < |ms| ==> ms[j].pos < ms[k].pos)
  }

  lemma WhiteIs(c: byte)
    ensures IsWhite(c) <==> IsLatinSpace(c)
  {
  }

  lemma LetterIs(c: byte)
    ensures IsLetter(c) <==> c in "ABCD"
  {
  }

  lemma StandsIs(t: bytes, m: Marker)
    ensures StandsAt(t, m) <==> m.pos < |t| && IsMarker(t, m.pos) && MarkerAt(t, m.pos) == m
  {
    hide IsWhite, IsLatinSpace, IsLetter;
    LetterIs(m.letter);
    LetterIs('*');
    if 0 < m.pos < |t| {
      WhiteIs(t[m.pos - 1]);
    }
    if m.pos + 2 < |t| {
      assert t[m.pos..m.pos + 3] == [t[m.pos], t[m.pos + 1], t[m.pos + 2]];
    }
    if m.pos + 1 < |t| {
      assert t[m.pos..m.pos + 2] == [t[m.pos], t[m.pos + 1]];
    }
  }

  lemma MarksFound(t: bytes)
    ensures AllMarks(t, Markers(t, 0, |t|))
  {
    hide Markers, StandsAt, IsMarker, MarkerAt;
    var ms := Markers(t, 0, |t|);
    MarkersMeaning(t, 0, |t|);
    forall m ensures m in ms <==> StandsAt(t, m) {
      StandsIs(t, m);
    }
  }

  // ---------- Lines ----------

  /** The text of the k-th marker: from its full stop to the next marker, or to the end. */
  function PieceAt(t: bytes, ms: seq<Marker>, k: nat): bytes
    requires k < |ms|
  {
    var from := ms[k].pos + if ms[k].correct then 3 else 2;
    var to := if k == |ms| - 1 then |t| else ms[k + 1].pos;
    if from <= to <= |t| then Trim(t[from..to]) else ""
  }

  predicate IsLastOf(ms: seq<Marker>, letter: byte, k: nat) {
    k < |ms| && ms[k].letter == letter && forall j :: k < j < |ms| ==> ms[j].letter != letter
  }

  predicate IsLastStar(ms: seq<Marker>, k: nat) {
    k < |ms| && ms[k].correct && forall j :: k < j < |ms| ==> !ms[j].correct
  }

  lemma TextIsPiece(t: bytes, ms: seq<Marker>, k: nat)
    requires k < |ms| && Spaced(t, ms)
    ensures TextOf(t, ms, k) == PieceAt(t, ms, k)
  {
    hide Trim;
    assert ms[k].pos + Skip(ms[k]) <= EndOf(t, ms, k) <= |t|;
  }

  lemma AnswerIsText(t: bytes, ms: seq<Marker>, k: nat)
    requires k < |ms| && Spaced(t, ms)
    ensures AnswerAt(t, ms, k + 1, ms[k].letter) == TextOf(t, ms, k)
  {
    hide TextOf, Spaced;
  }

  lemma {:induction false} AnswerOfLast(t: bytes, ms: seq<Marker>, n: nat, letter: byte, k: nat)
    requires n <= |ms| && Spaced(t, ms) && k < n && ms[k].letter == letter
    requires forall j :: k < j < n ==> ms[j].letter != letter
    ensures AnswerAt(t, ms, n, letter) == PieceAt(t, ms, k)
  {
    hide Trim;
    if k < n - 1 {
      hide PieceAt, Spaced, TextOf;
      AnswerOfLast(t, ms, n - 1, letter, k);
    } else {
      hide AnswerAt, Spaced;
      AnswerIsText(t, ms, k);
      TextIsPiece(t, ms, k);
    }
  }

  lemma {:induction false} NoAnswer(t: bytes, ms: seq<Marker>, n: nat, letter: byte)
    requires n <= |ms| && Spaced(t, ms) && forall j :: 0 <= j < n ==> ms[j].letter != letter
    ensures AnswerAt(t, ms, n, letter) == ""
  {
    if n > 0 {
      NoAnswer(t, ms, n - 1, letter);
    }
  }

  lemma {:induction false} StarOfLast(ms: seq<Marker>, n: nat)
    requires n <= |ms|
    ensures CorrectAt(ms, n).None? ==> forall j :: 0 <= j < n ==> !ms[j].correct
    ensures CorrectAt(ms, n).Some? ==>
              exists k :: 0 <= k < n && ms[k].correct && ms[k].letter == CorrectAt(ms, n).value
                          && forall j :: k < j < n ==> !ms[j].correct
  {
    if n > 0 {
      StarOfLast(ms, n - 1);
      if ms[n - 1].correct {
        assert ms[n - 1].letter == CorrectAt(ms, n).value;
      }
    }
  }

  /** The last marker with a letter, or none. */
  lemma {:induction false} SomeLast(ms: seq<Marker>, letter: byte, n: nat) returns (k: nat)
    requires n <= |ms| && forall j :: n <= j < |ms| ==> ms[j].letter != letter
    ensures IsLastOf(ms, letter, k) || forall j :: 0 <= j < |ms| ==> ms[j].letter != letter
  {
    if n == 0 {
      k := 0;
    } else if ms[n - 1].letter == letter {
      k := n - 1;
    } else {
      k := SomeLast(ms, letter, n - 1);
    }
  }

  /** What a letter is answered: the text of its last marker, nothing without one. */
  ghost predicate Answers(t: bytes, ms: seq<Marker>, letter: byte, answer: bytes) {
    && (forall k :: IsLastOf(ms, letter, k) ==> answer == PieceAt(t, ms, k))
    && ((forall k: nat :: !IsLastOf(ms, letter, k)) ==> answer == "")
  }

  lemma AnswerMeaning(t: bytes, ms: seq<Marker>, letter: byte)
    requires Spaced(t, ms)
    ensures Answers(t, ms, letter, AnswerAt(t, ms, |ms|, letter))
  {
    hide AnswerAt, PieceAt, Spaced;
    var k := SomeLast(ms, letter, |ms|);
    if IsLastOf(ms, letter, k) {
      AnswerOfLast(t, ms, |ms|, letter, k);
      assert forall j :: IsLastOf(ms, letter, j) ==> j == k;
    } else {
      NoAnswer(t, ms, |ms|, letter);
    }
  }

  /** What the text after Q. says: the question before the first marker, the four answers and the letter of the
      last star. */
  ghost predicate Says(t: bytes, ms: seq<Marker>, q: Question)
    requires |ms| > 0
  {
    && ms[0].pos <= |t| && q.question == Trim(t[..ms[0].pos]) && |q.options| == 4
    && Answers(t, ms, 'A', q.options[0]) && Answers(t, ms, 'B', q.options[1])
    && Answers(t, ms, 'C', q.options[2]) && Answers(t, ms, 'D', q.options[3])
    && exists k: nat :: IsLastStar(ms, k) && q.correct == ms[k].letter
  }

  predicate IsFull(q: Question) {
    q.question != "" && forall i :: 0 <= i < |q.options| ==> q.options[i] != ""
  }

  /** The text after Q. is read by its markers: two at least, a star, and nothing missing. */
  lemma RestSays(t: bytes) returns (ms: seq<Marker>)
    ensures AllMarks(t, ms)
    ensures ParsedRest(t).Some? ==> |ms| >= 2 && Says(t, ms, ParsedRest(t).value) && IsFull(ParsedRest(t).value)
    ensures ParsedRest(t).None? ==> |ms| < 2 || forall q :: Says(t, ms, q) ==> !IsFull(q)
  {
    hide AllMarks, Markers, AnswerAt, Answers, CorrectAt, Spaced, Trim;
    ms := Markers(t, 0, |t|);
    MarksFound(t);
    MarkersSpaced(t);
    MarkersMeaning(t, 0, |t|);
    AnswerMeaning(t, ms, 'A');
    AnswerMeaning(t, ms, 'B');
    AnswerMeaning(t, ms, 'C');
    AnswerMeaning(t, ms, 'D');
    StarOfLast(ms, |ms|);
    if |ms| >= 2 {
      if CorrectAt(ms, |ms|).Some? {
        var k :| 0 <= k < |ms| && ms[k].correct && ms[k].letter == CorrectAt(ms, |ms|).value
                 && forall j :: k < j < |ms| ==> !ms[j].correct;
        assert IsLastStar(ms, k);
      }
      forall q | Says(t, ms, q) && IsFull(q) ensures ParsedRest(t) == Some(q) {
        SaidOnce(t, ms, q);
      }
    }
  }

  lemma AnswersOnce(t: bytes, ms: seq<Marker>, letter: byte, a: bytes)
    requires Spaced(t, ms) && Answers(t, ms, letter, a)
    ensures a == AnswerAt(t, ms, |ms|, letter)
  {
    hide AnswerAt, PieceAt, Spaced;
    AnswerMeaning(t, ms, letter);
    var k := SomeLast(ms, letter, |ms|);
    assert IsLastOf(ms, letter, k) || forall j: nat :: !IsLastOf(ms, letter, j);
  }

  lemma SaidOnce(t: bytes, ms: seq<Marker>, q: Question)
    requires ms == Markers(t, 0, |t|) && |ms| >= 2 && Says(t, ms, q) && IsFull(q)
    ensures ParsedRest(t) == Some(q)
  {
    hide Markers, AnswerAt, Answers, Spaced, Trim;
    MarkersSpaced(t);
    AnswersOnce(t, ms, 'A', q.options[0]);
    AnswersOnce(t, ms, 'B', q.options[1]);
    AnswersOnce(t, ms, 'C', q.options[2]);
    AnswersOnce(t, ms, 'D', q.options[3]);
    assert q.options == AnswersAt(t, ms, |ms|);
    var k: nat :| IsLastStar(ms, k) && q.correct == ms[k].letter;
    LastStarIs(ms, k);
  }

  lemma LastStarIs(ms: seq<Marker>, k: nat)
    requires IsLastStar(ms, k)
    ensures CorrectAt(ms, |ms|) == Some(ms[k].letter)
  {
    hide CorrectAt;
    StarOfLast(ms, |ms|);
    assert CorrectAt(ms, |ms|).Some?;
    var j :| 0 <= j < |ms| && ms[j].correct && ms[j].letter == CorrectAt(ms, |ms|).value
             && forall i :: j < i < |ms| ==> !ms[i].correct;
    assert j == k;
  }

  /** A question line starts with Q. or q.; white space around the line does not matter. */
  lemma LineSays(left: bytes, line: bytes, right: bytes)
    requires AllSpace(left) && AllSpace(right) && Trimmed(line)
    ensures ParsedLine(left + line + right) ==
            if |line| >= 3 && (line[..2] == "Q." || line[..2] == "q.") then ParsedRest(line[2..]) else None
  {
    hide Trim, ParsedRest;
    TrimPadded(left, line, right);
    if |line| >= 3 {
      assert line[..2] == [line[0], line[1]];
    }
  }

  // ---------- Files ----------

  /** A line that is neither blank nor a comment. */
  predicate Counts(line: bytes) {
    Trim(line) != "" && Trim(line)[0] != '#'
  }

  function QuestionsOf(ls: seq<bytes>): seq<Question> {
    if ls == [] then []
    else QuestionsOf(ls[..|ls| - 1]) + match ParsedLine(ls[|ls| - 1]) case Some(q) => [q] case None => []
  }

  function BadLines(ls: seq<bytes>): set<nat> {
    set i: nat | i < |ls| && ParsedLine(ls[i]) == None && Counts(ls[i])
  }

  lemma {:induction false} LinesAppend(ls: seq<bytes>, line: bytes)
    ensures var p, r := ParsedLines(ls), ParsedLines(ls + [line]);
            match ParsedLine(line)
            case Some(q) => r == Parsed(p.qs + [q], p.bad)
            case None => r == Parsed(p.qs, p.bad + if Counts(line) then 1 else 0)
  {
    hide ParsedLine, Trim;
    var all := ls + [line];
    if ls == [] {
      assert all == [line] && all[1..] == [];
    } else {
      assert all[0] == ls[0] && all[1..] == ls[1..] + [line];
      LinesAppend(ls[1..], line);
    }
  }

  /** The questions of a file are those of its lines, in order, and the bad lines are the others that count. */
  lemma {:induction false} LinesSay(ls: seq<bytes>)
    ensures ParsedLines(ls) == Parsed(QuestionsOf(ls), |BadLines(ls)|)
  {
    hide ParsedLine, ParsedLines, Counts;
    if ls == [] {
      NoLinesSay();
    } else {
      var n := |ls| - 1;
      var front := ls[..n];
      LinesSay(front);
      LinesAppend(front, ls[n]);
      assert front + [ls[n]] == ls;
      assert forall i: nat :: i < n ==> front[i] == ls[i];
      if ParsedLine(ls[n]) == None && Counts(ls[n]) {
        assert BadLines(ls) == BadLines(front) + {n};
      } else {
        assert BadLines(ls) == BadLines(front);
      }
    }
  }

  lemma NoLinesSay()
    ensures ParsedLines([]) == Parsed([], 0) && BadLines([]) == {}
  {
  }

  // ---------- Validation ----------

  /** The first thing wrong with a question. */
  ghost predicate Fault(s: Submitted, e: QuestionError) {
    match e
    case EmptyQuestion => AllSpace(s.question)
    case NotFourAnswers => !AllSpace(s.question) && |s.options| != 4
    case EmptyAnswer => !AllSpace(s.question) && |s.options| == 4 && exists i :: 0 <= i < 4 && AllSpace(s.options[i])
    case BadCorrect =>
      && !AllSpace(s.question) && |s.options| == 4 && (forall i :: 0 <= i < 4 ==> !AllSpace(s.options[i]))
      && !(ToUpper(Trim(s.correct)) in {"A", "B", "C", "D"})
  }

  /** A question that is let through: trimmed, with the right answer's letter in upper case. */
  predicate IsCleaned(s: Submitted, q: Question) {
    && q.question == Trim(s.question) && |q.options| == |s.options|
    && (forall i :: 0 <= i < |s.options| ==> q.options[i] == Trim(s.options[i]))
    && [q.correct] == ToUpper(Trim(s.correct))
  }

  lemma FourBlank(s: Submitted)
    requires |s.options| == 4
    ensures (exists i :: 0 <= i < 4 && AllSpace(s.options[i])) <==>
            Trim(s.options[0]) == "" || Trim(s.options[1]) == "" || Trim(s.options[2]) == "" || Trim(s.options[3]) == ""
  {
    hide Trim, AllSpace;
    forall i | 0 <= i < 4 ensures Trim(s.options[i]) == "" <==> AllSpace(s.options[i]) {
      BlankTrim(s.options[i]);
    }
  }

  lemma OneLetter(c: bytes)
    ensures (|c| == 1 && IsLetter(c[0])) <==> c in {"A", "B", "C", "D"}
  {
    if |c| == 1 {
      assert c == [c[0]];
    }
  }

  lemma CheckSays(s: Submitted)
    ensures forall e :: Check(s) == Bad(e) <==> Fault(s, e)
    ensures forall q :: Check(s) == Good(q) ==> IsCleaned(s, q)
  {
    hide Trim, AllSpace, ToUpper, IsLetter, Valid;
    BlankTrim(s.question);
    OneLetter(ToUpper(Trim(s.correct)));
    if |s.options| == 4 {
      FourBlank(s);
    }
  }

  /** Validation gives every question cleaned, or refuses the first one that has a fault, with its first fault. */
  lemma {:induction false} ValidationSays(ss: seq<Submitted>, i: nat)
    requires i <= |ss|
    ensures var r := CheckAll(ss, i);
            && (r.Refused? ==> i <= r.index < |ss| && Fault(ss[r.index], r.error)
                               && forall j, e :: i <= j < r.index ==> !Fault(ss[j], e))
            && (r.Validated? ==> |r.qs| == |ss| - i && (forall j, e :: i <= j < |ss| ==> !Fault(ss[j], e))
                                 && forall j :: i <= j < |ss| ==> IsCleaned(ss[j], r.qs[j - i]))
    decreases |ss| - i
  {
    hide Check, Fault, IsCleaned;
    if i < |ss| {
      CheckSays(ss[i]);
      ValidationSays(ss, i + 1);
    }
  }
}
