/** The round trip of whole trivia files (internal/api/handlers_palace_preferences_extras.go). */
module TriviaFile {
  import opened Wrappers
  import opened Bytes
  import opened Trivia
  import opened TriviaLaws

  // ---------- One line ----------

  /** A question that starts with a marker is lost: nothing stands before the first marker. */
  lemma QuestionStartLost(q: Question)
    requires Valid(q) && IsMarker(q.question, 0)
    ensures ParsedRest(RestOf(q)) != Some(q)
  {
    hide Trim, Markers, IsMarker, AnswerAt, CorrectAt, Spaced, RestOf;
    var t := RestOf(q);
    RestParts(q);
    FieldMarkers(t, 1, q.question, 0);
    SpaceIsNoMarker(t, 0);
    MarkersMeaning(t, 0, |t|);
    var ms := Markers(t, 0, |t|);
    assert MarkerAt(t, 1) in ms;
    MarkerOutside(t, 0, 1);
    assert ms[0].pos == 1;
    assert t[..1] == " ";
    TrimFixed("");
    TrimPadded(" ", "", "");
    assert " " + "" + "" == " ";
  }

  predicate MarkerFreeFields(q: Question) {
    MarkerFree(q.question) && forall k :: 0 <= k < |q.options| ==> MarkerFree(q.options[k])
  }

  /** A written line reads back as its question exactly when no field holds a marker. */
  lemma RestReadIff(q: Question)
    requires Valid(q)
    ensures ParsedRest(RestOf(q)) == Some(q) <==> MarkerFreeFields(q)
  {
    hide ParsedRest, RestOf, IsMarker, IsField;
    if MarkerFreeFields(q) {
      RestRead(q);
    } else if ParsedRest(RestOf(q)) == Some(q) {
      ReadInner(RestOf(q), q);
      QuestionFree(q);
      OptionsFree(q, 0);
      assert false;
    }
  }

  lemma QuestionFree(q: Question)
    requires Valid(q) && ParsedRest(RestOf(q)) == Some(q)
    requires forall i :: 0 < i < |q.question| ==> !IsMarker(q.question, i)
    ensures MarkerFree(q.question)
  {
    hide ParsedRest, RestOf, IsMarker, Trim;
    if IsMarker(q.question, 0) {
      QuestionStartLost(q);
    }
  }

  lemma {:induction false} OptionsFree(q: Question, j: nat)
    requires j <= 4 && Valid(q) && ParsedRest(RestOf(q)) == Some(q)
    requires forall k, i :: 0 <= k < 4 && 0 < i < |q.options[k]| ==> !IsMarker(q.options[k], i)
    ensures forall k :: j <= k < 4 ==> MarkerFree(q.options[k])
    decreases 4 - j
  {
    hide ParsedRest, RestOf, IsMarker, Trim;
    if j < 4 {
      OptionsFree(q, j + 1);
      if IsMarker(q.options[j], 0) {
        StartMarkerLost(q, j);
      }
    }
  }

  lemma LastByte(q: Question, j: nat)
    requires j < 4 && Valid(q)
    ensures Answers(q, j) != [] && !IsSpace(Answers(q, j)[|Answers(q, j)| - 1])
    decreases 4 - j
  {
    hide MarkText, Glue, Trim, Answers;
    AnswersUnfold(q, j);
    if j < 3 {
      LastByte(q, j + 1);
    } else {
      NothingAfter(q);
      FieldEnds(q.options[3]);
    }
  }

  lemma NothingAfter(q: Question)
    requires |q.options| == 4
    ensures Answers(q, 4) == []
  {
  }

  lemma FieldEnds(f: bytes)
    requires IsField(f)
    ensures !IsSpace(f[|f| - 1])
  {
    hide Trim;
    assert Trimmed(Trim(f));
  }

  /** A written line needs no trimming and starts with Q. */
  lemma LineShape(q: Question)
    requires Valid(q)
    ensures Trim(Line(q)) == Line(q) && IsQuestionLine(Line(q)) && Line(q)[2..] == RestOf(q)
    ensures StripCr(Line(q)) == Line(q) && !IsIgnored(Line(q))
  {
    hide Trim, Answers;
    LastByte(q, 0);
    var l := Line(q);
    assert l == "Q." + RestOf(q);
    assert l[|l| - 1] == Answers(q, 0)[|Answers(q, 0)| - 1];
    TrimFixed(l);
  }

  lemma LineReadIff(q: Question)
    requires Valid(q)
    ensures ParsedLine(Line(q)) == Some(q) <==> MarkerFreeFields(q)
  {
    hide ParsedRest, RestOf, IsMarker, Line, Valid, MarkerFreeFields, Trim, IsQuestionLine;
    LineShape(q);
    RestReadIff(q);
  }

  // ---------- Line ends ----------

  predicate NewlineFreeFields(q: Question) {
    NoNewline(q.question) && forall k :: 0 <= k < |q.options| ==> NoNewline(q.options[k])
  }

  lemma TrimNewline(s: bytes)
    requires NoNewline(s)
    ensures NoNewline(Trim(s))
  {
    hide Trim;
    var left, right := TrimParts(s);
    forall i | 0 <= i < |Trim(s)| ensures Trim(s)[i] != '\n' {
      assert s[|left| + i] == Trim(s)[i];
    }
  }

  lemma {:induction false} AnswerNewline(t: bytes, ms: seq<Marker>, n: nat, letter: byte)
    requires NoNewline(t) && Spaced(t, ms) && n <= |ms|
    ensures NoNewline(AnswerAt(t, ms, n, letter))
    decreases n
  {
    hide Trim;
    if n > 0 {
      if ms[n - 1].letter == letter {
        TrimNewline(t[ms[n - 1].pos + Skip(ms[n - 1])..EndOf(t, ms, n - 1)]);
      } else {
        AnswerNewline(t, ms, n - 1, letter);
      }
    }
  }

  /** No field read from a line holds a line end. */
  lemma ReadNewline(line: bytes, q: Question)
    requires NoNewline(line) && ParsedLine(line) == Some(q)
    ensures NewlineFreeFields(q)
  {
    hide Trim, Markers, IsMarker, Spaced, AnswerAt, CorrectAt;
    TrimNewline(line);
    var t := Trim(line)[2..];
    var ms := Markers(t, 0, |t|);
    MarkersSpaced(t);
    MarkersMeaning(t, 0, |t|);
    TrimNewline(t[..ms[0].pos]);
    AnswerNewline(t, ms, |ms|, 'A');
    AnswerNewline(t, ms, |ms|, 'B');
    AnswerNewline(t, ms, |ms|, 'C');
    AnswerNewline(t, ms, |ms|, 'D');
  }

  lemma {:induction false} LinesReadNewline(ls: seq<bytes>)
    requires NewlineFree(ls)
    ensures forall i :: 0 <= i < |ParsedLines(ls).qs| ==> NewlineFreeFields(ParsedLines(ls).qs[i])
  {
    hide ParsedLine, IsIgnored, NewlineFreeFields;
    if ls != [] {
      LinesReadNewline(ls[1..]);
      if ParsedLine(ls[0]).Some? {
        ReadNewline(ls[0], ParsedLine(ls[0]).value);
      }
    }
  }

  lemma {:induction false} AnswersNewline(q: Question, j: nat)
    requires j <= 4 && |q.options| == 4 && IsLetter(q.correct) && NewlineFreeFields(q)
    ensures NoNewline(Answers(q, j))
    decreases 4 - j
  {
    hide Answers, Glue;
    if j == 4 {
      NothingAfter(q);
    } else {
      AnswersUnfold(q, j);
      AnswersNewline(q, j + 1);
      GlueNewline(q, j);
    }
  }

  lemma GlueNewline(q: Question, j: nat)
    requires j < 4
    ensures NoNewline(Glue(q, j))
  {
  }

  lemma LineNewline(q: Question)
    requires Valid(q) && NewlineFreeFields(q)
    ensures NoNewline(Line(q))
  {
    hide Answers, Trim;
    AnswersNewline(q, 0);
  }

  // ---------- The file ----------

  lemma HeaderIgnored()
    ensures ParsedLine(TITLE) == None && IsIgnored(TITLE) && ParsedLine(FORMAT) == None && IsIgnored(FORMAT)
    ensures ParsedLine("") == None && IsIgnored("")
    ensures NoNewline(TITLE) && NoNewline(FORMAT) && StripCr(TITLE) == TITLE && StripCr(FORMAT) == FORMAT
  {
    hide Trim;
    TrimFixed(TITLE);
    TrimFixed(FORMAT);
    TrimFixed("");
  }

  /** A file of single-line questions splits into the lines it was rendered from. */
  lemma RenderedLines(qs: seq<Question>)
    requires AllValid(qs) && forall i :: 0 <= i < |qs| ==> NewlineFreeFields(qs[i])
    ensures Lines(DropCr(Rendered(qs))) == [TITLE, FORMAT] + QuestionLines(qs) + [[]]
  {
    hide Lines, DropCr, Unlines, Line, Valid, NewlineFreeFields, StripCr, TITLE, FORMAT;
    var ls := [TITLE, FORMAT] + QuestionLines(qs);
    HeaderIgnored();
    forall i | 0 <= i < |ls| ensures NoNewline(ls[i]) && StripCr(ls[i]) == ls[i] {
      if i >= 2 {
        LineNewline(qs[i - 2]);
        LineShape(qs[i - 2]);
      }
    }
    DropCrUnlines(ls);
    assert StripCrAll(ls) == ls;
    LinesOfUnlines(ls);
  }

  lemma {:induction false} LinesReadIff(qs: seq<Question>)
    requires AllValid(qs)
    ensures ParsedLines(QuestionLines(qs) + [[]]) == Parsed(qs, 0) <==>
            forall i :: 0 <= i < |qs| ==> ParsedLine(Line(qs[i])) == Some(qs[i])
    ensures |ParsedLines(QuestionLines(qs) + [[]]).qs| + ParsedLines(QuestionLines(qs) + [[]]).bad == |qs|
  {
    hide ParsedLine, IsIgnored, Line, IsField, ParsedLines;
    var ls := QuestionLines(qs) + [[]];
    if qs == [] {
      NoLinesRead();
      assert ls == [[]];
    } else {
      var rest := qs[1..];
      assert ls[0] == Line(qs[0]) && ls[1..] == QuestionLines(rest) + [[]];
      LinesReadIff(rest);
      LineShape(qs[0]);
      LineFirst(ls);
      assert qs == [qs[0]] + rest;
      var after := ParsedLines(ls[1..]);
      if ParsedLine(ls[0]).Some? {
        HeadAndTail(ParsedLine(ls[0]).value, after.qs, qs[0], rest);
      }
      assert forall i :: 0 <= i < |rest| ==> rest[i] == qs[i + 1];
      assert forall i :: 0 < i < |qs| ==> qs[i] == rest[i - 1];
    }
  }

  lemma NoLinesRead()
    ensures ParsedLines([[]]) == Parsed([], 0)
  {
    hide ParsedLine, IsIgnored;
    HeaderIgnored();
    var none: seq<bytes> := [[]];
    assert none[1..] == [];
  }

  lemma LineFirst(ls: seq<bytes>)
    requires ls != [] && !IsIgnored(ls[0])
    ensures var rest := ParsedLines(ls[1..]);
            ParsedLines(ls) == match ParsedLine(ls[0])
                               case Some(q) => Parsed([q] + rest.qs, rest.bad)
                               case None => Parsed(rest.qs, rest.bad + 1)
  {
    hide ParsedLine, IsIgnored;
  }

  lemma HeadAndTail<T>(a: T, xs: seq<T>, b: T, ys: seq<T>)
    ensures [a] + xs == [b] + ys <==> a == b && xs == ys
  {
    if [a] + xs == [b] + ys {
      assert ([a] + xs)[0] == ([b] + ys)[0];
      assert ([a] + xs)[1..] == ([b] + ys)[1..];
      assert ([a] + xs)[1..] == xs && ([b] + ys)[1..] == ys;
    }
  }

  lemma HeaderRead(ls: seq<bytes>)
    ensures ParsedLines([TITLE, FORMAT] + ls) == ParsedLines(ls)
  {
    hide ParsedLine, IsIgnored, TITLE, FORMAT;
    HeaderIgnored();
    var all := [TITLE, FORMAT] + ls;
    assert all[1..][1..] == ls;
  }

  /** A rendered file reads back as its questions, with no bad line, exactly when every field is clean. */
  lemma RoundTripIff(qs: seq<Question>)
    requires AllValid(qs)
    ensures ParsedFile(Rendered(qs)) == Parsed(qs, 0) <==> forall i :: 0 <= i < |qs| ==> Clean(qs[i])
  {
    hide ParsedLines, Rendered, Lines, DropCr, Clean, TITLE, FORMAT, Line, IsField, ParsedLine;
    var content := DropCr(Rendered(qs));
    LinesReadNewline(Lines(content));
    forall i | 0 <= i < |qs| ensures Clean(qs[i]) <==> NewlineFreeFields(qs[i]) && MarkerFreeFields(qs[i]) {
      CleanIs(qs[i]);
    }
    if forall i :: 0 <= i < |qs| ==> NewlineFreeFields(qs[i]) {
      RenderedLines(qs);
      assert [TITLE, FORMAT] + QuestionLines(qs) + [[]] == [TITLE, FORMAT] + (QuestionLines(qs) + [[]]);
      HeaderRead(QuestionLines(qs) + [[]]);
      LinesReadIff(qs);
      forall i | 0 <= i < |qs| ensures ParsedLine(Line(qs[i])) == Some(qs[i]) <==> MarkerFreeFields(qs[i]) {
        LineReadIff(qs[i]);
      }
    }
  }

  /** A valid question that is not read back: its text looks like an answer. */
  lemma RoundTripLoses()
    ensures var q := Question("A.x", ["a", "b", "c", "d"], 'A');
            AllValid([q]) && ParsedFile(Rendered([q])) != Parsed([q], 0)
  {
    hide ParsedFile, Rendered;
    var q := Question("A.x", ["a", "b", "c", "d"], 'A');
    assert IsMarker(q.question, 0);
    assert !CleanField(q.question);
    RoundTripIff([q]);
    assert !Clean([q][0]);
  }

  lemma CleanIs(q: Question)
    ensures Clean(q) <==> NewlineFreeFields(q) && MarkerFreeFields(q)
  {
    hide MarkerFree;
  }
}
