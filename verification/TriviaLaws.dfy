/** A trivia file reads back as the questions it was rendered from exactly when no field holds a line
    end or a marker (internal/api/handlers_palace_preferences_extras.go). */
module TriviaLaws {
  import opened Wrappers
  import opened Bytes
  import opened Trivia

  /** No A. to D. or *A. to *D. at the start of the field or after white space. */
  predicate MarkerFree(f: bytes) {
    forall i :: 0 <= i < |f| ==> !IsMarker(f, i)
  }

  predicate CleanField(f: bytes) {
    NoNewline(f) && MarkerFree(f)
  }

  /** What a caller could check before saving. */
  predicate Clean(q: Question) {
    CleanField(q.question) && forall i :: 0 <= i < |q.options| ==> CleanField(q.options[i])
  }

  // ---------- Ranges of markers ----------

  lemma {:induction false} MarkersSplit(t: bytes, a: nat, b: nat, c: nat)
    requires a <= b <= c <= |t|
    ensures Markers(t, a, c) == Markers(t, a, b) + Markers(t, b, c)
    decreases b - a
  {
    hide IsMarker, MarkerAt;
    if a < b {
      MarkersSplit(t, a + 1, b, c);
    }
  }

  lemma {:induction false} NoMarkersIn(t: bytes, a: nat, b: nat)
    requires a <= b <= |t| && forall i :: a <= i < b ==> !IsMarker(t, i)
    ensures Markers(t, a, b) == []
    decreases b - a
  {
    hide IsMarker;
    if a < b {
      NoMarkersIn(t, a + 1, b);
    }
  }

  lemma OneMarkerIn(t: bytes, a: nat, b: nat)
    requires a < b <= |t| && IsMarker(t, a) && forall i :: a < i < b ==> !IsMarker(t, i)
    ensures Markers(t, a, b) == [MarkerAt(t, a)]
  {
    hide IsMarker, MarkerAt;
    NoMarkersIn(t, a + 1, b);
  }

  /** A field between spaces shows the same markers in its line as on its own: none straddles its ends. */
  lemma FieldMarkers(t: bytes, a: nat, f: bytes, i: nat)
    requires 0 < a && a + |f| <= |t| && t[a..a + |f|] == f && t[a - 1] == ' ' && (a + |f| < |t| ==> t[a + |f|] == ' ')
    requires i < |f|
    ensures IsMarker(t, a + i) <==> IsMarker(f, i)
    ensures IsMarker(f, i) ==> MarkerAt(t, a + i) == MarkerAt(f, i).(pos := a + i)
  {
    assert forall k :: 0 <= k < |f| ==> t[a + k] == f[k];
  }

  // ---------- Written answers ----------

  /** The written marker of an answer, with the spaces around it. */
  function Glue(q: Question, j: nat): (r: bytes)
    requires j < 4
    ensures |r| >= 2 && r[0] == ' ' && r[|r| - 1] == ' '
  {
    " " + MarkText(q, j) + " "
  }

  /** The markers the answers from j on are written with, when they start at base. */
  function WrittenMarks(q: Question, j: nat, base: nat): (ms: seq<Marker>)
    requires j <= 4 && |q.options| == 4
    ensures |ms| == 4 - j
    decreases 4 - j
  {
    if j == 4 then []
    else
      [Marker(base + 1, Letter(j), Letter(j) == q.correct)]
      + WrittenMarks(q, j + 1, base + |Glue(q, j)| + |q.options[j]|)
  }

  /** The answers from j on stand at base. */
  predicate AnswersStand(t: bytes, base: nat, q: Question, j: nat)
    requires j <= 4 && |q.options| == 4
  {
    base <= |t| && t[base..] == Answers(q, j)
  }

  /** Where the parts of an answer stand. */
  lemma AnswerParts(t: bytes, base: nat, q: Question, j: nat)
    requires j < 4 && |q.options| == 4 && AnswersStand(t, base, q, j)
    ensures var g, o := |Glue(q, j)|, |q.options[j]|;
            && base + g + o <= |t| && t[base..base + g] == Glue(q, j) && t[base + g..base + g + o] == q.options[j]
            && AnswersStand(t, base + g + o, q, j + 1) && t[base + g - 1] == ' '
            && (base + g + o < |t| ==> t[base + g + o] == ' ')
  {
    hide Glue, Answers;
    var g, o, rest := Glue(q, j), q.options[j], Answers(q, j + 1);
    AnswersUnfold(q, j);
    Slices(t, base, g, o, rest);
    if rest != [] {
      assert t[base + |g| + |o|] == rest[0];
      AnswersStart(q, j + 1);
    }
  }

  lemma Slices(t: bytes, base: nat, g: bytes, o: bytes, rest: bytes)
    requires base <= |t| && t[base..] == g + o + rest && g != []
    ensures base + |g| + |o| <= |t| && t[base..base + |g|] == g && t[base + |g|..base + |g| + |o|] == o
    ensures t[base + |g| + |o|..] == rest && t[base + |g| - 1] == g[|g| - 1]
  {
    var s := t[base..];
    assert forall k :: 0 <= k < |s| ==> s[k] == t[base + k];
  }

  lemma AnswersUnfold(q: Question, j: nat)
    requires j < 4 && |q.options| == 4
    ensures Answers(q, j) == Glue(q, j) + q.options[j] + Answers(q, j + 1)
  {
    hide MarkText;
  }

  lemma AnswersStart(q: Question, j: nat)
    requires j <= 4 && |q.options| == 4 && Answers(q, j) != []
    ensures Answers(q, j)[0] == ' '
  {
    hide MarkText;
  }

  /** The glue holds one marker, after its first space. */
  lemma GlueMarkers(t: bytes, base: nat, q: Question, j: nat)
    requires j < 4 && base + |Glue(q, j)| <= |t| && t[base..base + |Glue(q, j)|] == Glue(q, j)
    ensures Markers(t, base, base + |Glue(q, j)|) == [Marker(base + 1, Letter(j), Letter(j) == q.correct)]
  {
    hide Markers;
    var g := Glue(q, j);
    assert forall k :: 0 <= k < |g| ==> t[base + k] == g[k];
    GlueShape(q, j);
    MarkersSplit(t, base, base + 1, base + |g|);
    NoMarkersIn(t, base, base + 1);
    OneMarkerIn(t, base + 1, base + |g|);
  }

  lemma GlueShape(q: Question, j: nat)
    requires j < 4
    ensures var g := Glue(q, j);
            && IsLetter(Letter(j)) && g[0] == ' '
            && (if Letter(j) == q.correct then |g| == 5 && g[1] == '*' && g[2] == Letter(j) && g[3] == '.' && g[4] == ' '
                else |g| == 4 && g[1] == Letter(j) && g[2] == '.' && g[3] == ' ')
  {
  }

  /** One marker-free answer shows its written marker and no other. */
  lemma AnswerMarkers(t: bytes, base: nat, q: Question, j: nat)
    requires j < 4 && |q.options| == 4 && AnswersStand(t, base, q, j) && MarkerFree(q.options[j])
    ensures var b := base + |Glue(q, j)| + |q.options[j]|;
            b <= |t| && Markers(t, base, b) == [Marker(base + 1, Letter(j), Letter(j) == q.correct)]
  {
    hide Markers, Glue, IsMarker, MarkerAt, Answers, AnswersStand, MarkerFree;
    AnswerParts(t, base, q, j);
    var a := base + |Glue(q, j)|;
    GlueMarkers(t, base, q, j);
    OptionMarkers(t, a, q, j);
    MarkersSplit(t, base, a, a + |q.options[j]|);
  }

  lemma WrittenUnfold(q: Question, j: nat, base: nat)
    requires j <= 4 && |q.options| == 4
    ensures j == 4 ==> WrittenMarks(q, j, base) == []
    ensures j < 4 ==> WrittenMarks(q, j, base) == [Marker(base + 1, Letter(j), Letter(j) == q.correct)]
                                                  + WrittenMarks(q, j + 1, base + |Glue(q, j)| + |q.options[j]|)
  {
    hide Glue, Letter;
  }

  /** Marker-free answers show exactly their written markers. */
  lemma {:induction false} AnswersMarkers(t: bytes, base: nat, q: Question, j: nat)
    requires j <= 4 && |q.options| == 4 && AnswersStand(t, base, q, j)
    requires forall k :: j <= k < 4 ==> MarkerFree(q.options[k])
    ensures Markers(t, base, |t|) == WrittenMarks(q, j, base)
    decreases 4 - j
  {
    hide Markers, Glue, IsMarker, MarkerAt, Answers, AnswersStand, MarkerFree, WrittenMarks, Letter;
    WrittenUnfold(q, j, base);
    if j == 4 {
      AnswersEnd(t, base, q);
      NoMarkersIn(t, base, |t|);
    } else {
      AnswerParts(t, base, q, j);
      AnswerMarkers(t, base, q, j);
      var b := base + |Glue(q, j)| + |q.options[j]|;
      AnswersMarkers(t, b, q, j + 1);
      MarkersSplit(t, base, b, |t|);
    }
  }

  lemma AnswersEnd(t: bytes, base: nat, q: Question)
    requires |q.options| == 4 && AnswersStand(t, base, q, 4)
    ensures base == |t|
  {
  }

  lemma OptionMarkers(t: bytes, a: nat, q: Question, j: nat)
    requires j < 4 && |q.options| == 4 && MarkerFree(q.options[j])
    requires var f := q.options[j];
             0 < a && a + |f| <= |t| && t[a..a + |f|] == f && t[a - 1] == ' ' && (a + |f| < |t| ==> t[a + |f|] == ' ')
    ensures Markers(t, a, a + |q.options[j]|) == []
  {
    hide Markers, IsMarker, MarkerAt;
    var f := q.options[j];
    forall i | a <= i < a + |f| ensures !IsMarker(t, i) {
      FieldMarkers(t, a, f, i - a);
    }
    NoMarkersIn(t, a, a + |f|);
  }

  // ---------- Reading the written answers ----------

  /** The text after Q. in a written line. */
  function RestOf(q: Question): bytes
    requires |q.options| == 4
  {
    " " + q.question + Answers(q, 0)
  }

  lemma {:induction false} WrittenMarksAt(q: Question, j: nat, base: nat, i: nat)
    requires j <= 4 && |q.options| == 4 && i < 4 - j
    ensures var m := WrittenMarks(q, j, base)[i];
            m.letter == Letter(j + i) && m.correct == (Letter(j + i) == q.correct) && (i == 0 ==> m.pos == base + 1)
    decreases 4 - j
  {
    hide Glue;
    if i > 0 {
      WrittenMarksAt(q, j + 1, base + |Glue(q, j)| + |q.options[j]|, i - 1);
    }
  }

  lemma {:induction false} AnswerSkips(t: bytes, ms: seq<Marker>, n: nat, m: nat, letter: byte)
    requires n <= m <= |ms| && Spaced(t, ms) && forall i :: n <= i < m ==> ms[i].letter != letter
    ensures AnswerAt(t, ms, m, letter) == AnswerAt(t, ms, n, letter)
    decreases m - n
  {
    hide Spaced, TextOf;
    if n < m {
      AnswerSkips(t, ms, n, m - 1, letter);
    }
  }

  /** A field between single spaces is what trimming leaves. */
  lemma FieldTrimmed(t: bytes, x: nat, f: bytes, y: nat)
    requires IsField(f) && x + 1 + |f| <= y <= |t| && t[x] == ' ' && t[x + 1..x + 1 + |f|] == f
    requires y == x + 1 + |f| || (y == x + 2 + |f| && t[y - 1] == ' ')
    ensures Trim(t[x..y]) == f
  {
    hide Trim;
    var right := if y == x + 1 + |f| then "" else " ";
    assert t[x..y] == " " + f + right;
    TrimPadded(" ", f, right);
  }

  /** The text of a written marker: the answer itself when the marker list goes on as written. */
  lemma WrittenText(t: bytes, base: nat, q: Question, j: nat, ms: seq<Marker>, n: nat)
    requires j < 4 && Valid(q) && AnswersStand(t, base, q, j) && Spaced(t, ms)
    requires n < |ms| && ms[n] == Marker(base + 1, Letter(j), Letter(j) == q.correct)
    requires var b := base + |Glue(q, j)| + |q.options[j]|;
             if j < 3 then n + 1 < |ms| && ms[n + 1].pos == b + 1 else n + 1 == |ms|
    ensures TextOf(t, ms, n) == q.options[j]
  {
    hide Trim, Answers, MarkText, Spaced, AnswersStand;
    AnswerParts(t, base, q, j);
    GlueShape(q, j);
    var g, f := |Glue(q, j)|, q.options[j];
    if j < 3 {
      AnswerParts(t, base + g + |f|, q, j + 1);
      GlueHere(t, base + g + |f|, q, j + 1);
    } else {
      AnswersEnd(t, base + g + |f|, q);
    }
    FieldTrimmed(t, base + g - 1, f, EndOf(t, ms, n));
  }

  lemma GlueHere(t: bytes, base: nat, q: Question, j: nat)
    requires j < 4 && base + |Glue(q, j)| <= |t| && t[base..base + |Glue(q, j)|] == Glue(q, j)
    ensures t[base] == ' '
  {
    hide MarkText;
    assert t[base..base + |Glue(q, j)|][0] == t[base];
  }

  /** When the list ends with the written markers from j on, those answers are read. */
  lemma {:induction false} AnswersRead(t: bytes, base: nat, q: Question, j: nat, ms: seq<Marker>, n: nat, k: nat)
    requires j <= k < 4 && Valid(q) && AnswersStand(t, base, q, j) && Spaced(t, ms)
    requires n <= |ms| && ms[n..] == WrittenMarks(q, j, base)
    ensures AnswerAt(t, ms, |ms|, Letter(k)) == q.options[k]
    decreases 4 - j
  {
    hide Trim, Answers, MarkText, Spaced, AnswersStand, TextOf, AnswerAt, Glue, IsField;
    var next := base + |Glue(q, j)| + |q.options[j]|;
    assert ms[n] == ms[n..][0] && ms[n + 1..] == ms[n..][1..] == WrittenMarks(q, j + 1, next);
    if k > j {
      AnswerParts(t, base, q, j);
      AnswersRead(t, next, q, j + 1, ms, n + 1, k);
    } else {
      forall i | n + 1 <= i < |ms| ensures ms[i].letter != Letter(j) {
        WrittenMarksAt(q, j + 1, next, i - n - 1);
        assert ms[i] == ms[n + 1..][i - n - 1];
      }
      AnswerSkips(t, ms, n + 1, |ms|, Letter(j));
      if j < 3 {
        assert ms[n + 1] == ms[n + 1..][0];
      }
      WrittenText(t, base, q, j, ms, n);
      LastAnswer(t, ms, n, Letter(j));
    }
  }

  lemma LastAnswer(t: bytes, ms: seq<Marker>, n: nat, letter: byte)
    requires n < |ms| && Spaced(t, ms)
    ensures AnswerAt(t, ms, n + 1, letter) == if ms[n].letter == letter then TextOf(t, ms, n) else AnswerAt(t, ms, n, letter)
  {
    hide Trim;
  }

  lemma CorrectRead(q: Question, base: nat)
    requires Valid(q)
    ensures CorrectAt(WrittenMarks(q, 0, base), 4) == Some(q.correct)
  {
    hide Trim, WrittenMarks;
    var ms := WrittenMarks(q, 0, base);
    WrittenMarksAt(q, 0, base, 0);
    WrittenMarksAt(q, 0, base, 1);
    WrittenMarksAt(q, 0, base, 2);
    WrittenMarksAt(q, 0, base, 3);
    var at := q.correct as int - 'A' as int;
    assert CorrectAt(ms, at + 1) == Some(q.correct);
    CorrectSkips(ms, at + 1, 4);
  }

  lemma {:induction false} CorrectSkips(ms: seq<Marker>, n: nat, m: nat)
    requires n <= m <= |ms| && forall i :: n <= i < m ==> !ms[i].correct
    ensures CorrectAt(ms, m) == CorrectAt(ms, n)
    decreases m - n
  {
    if n < m {
      CorrectSkips(ms, n, m - 1);
    }
  }

  /** Where the answers of a line start. */
  lemma RestParts(q: Question)
    requires |q.options| == 4
    ensures var t := RestOf(q);
            && AnswersStand(t, 1 + |q.question|, q, 0) && t[0] == ' ' && t[1..1 + |q.question|] == q.question
            && 1 + |q.question| < |t| && t[1 + |q.question|] == ' '
  {
    hide Answers;
    AnswersUnfold(q, 0);
    var t := RestOf(q);
    assert t == (" " + q.question) + Answers(q, 0);
    assert t[1 + |q.question|] == Answers(q, 0)[0];
    assert t[1 + |q.question|..] == Answers(q, 0);
  }

  lemma RestMarkers(q: Question)
    requires |q.options| == 4 && MarkerFree(q.question) && forall k :: 0 <= k < 4 ==> MarkerFree(q.options[k])
    ensures Markers(RestOf(q), 0, |RestOf(q)|) == WrittenMarks(q, 0, 1 + |q.question|)
  {
    hide Markers, IsMarker, MarkerAt, Answers, AnswersStand, WrittenMarks;
    var t, a := RestOf(q), 1 + |q.question|;
    RestParts(q);
    forall i | 0 <= i < a ensures !IsMarker(t, i) {
      if i == 0 {
        SpaceIsNoMarker(t, 0);
      } else {
        FieldMarkers(t, 1, q.question, i - 1);
      }
    }
    NoMarkersIn(t, 0, a);
    AnswersMarkers(t, a, q, 0);
    MarkersSplit(t, 0, a, |t|);
  }

  lemma SpaceIsNoMarker(t: bytes, i: nat)
    requires i < |t| && t[i] == ' '
    ensures !IsMarker(t, i)
  {
  }

  /** A question whose fields hold no marker is read back from its line. */
  lemma RestRead(q: Question)
    requires Valid(q) && MarkerFree(q.question) && forall k :: 0 <= k < 4 ==> MarkerFree(q.options[k])
    ensures ParsedRest(RestOf(q)) == Some(q)
  {
    hide Trim, Markers, MarkerFree, Answers, AnswersStand, AnswerAt, CorrectAt, RestOf, Spaced;
    var t, base := RestOf(q), 1 + |q.question|;
    RestMarkers(q);
    RestParts(q);
    MarkersSpaced(t);
    var ms := WrittenMarks(q, 0, base);
    assert ms[0..] == ms;
    AnswersRead(t, base, q, 0, ms, 0, 0);
    AnswersRead(t, base, q, 0, ms, 0, 1);
    AnswersRead(t, base, q, 0, ms, 0, 2);
    AnswersRead(t, base, q, 0, ms, 0, 3);
    CorrectRead(q, base);
    FieldTrimmed(t, 0, q.question, base + 1);
    assert AnswersAt(t, ms, 4) == q.options;
  }

  // ---------- What parsing can return ----------

  /** A trimmed piece of a text holds no marker after white space when the text has none inside that piece. */
  lemma PieceInner(t: bytes, x: nat, y: nat, i: nat)
    requires x <= y <= |t| && 0 < i < |Trim(t[x..y])| && IsMarker(Trim(t[x..y]), i)
    ensures exists p :: x < p < y && IsMarker(t, p)
  {
    hide Trim;
    var left, right := TrimParts(t[x..y]);
    var f, p := Trim(t[x..y]), x + |left| + i;
    assert t[x..y] == left + f + right;
    assert forall k :: 0 <= k < |f| ==> t[x + |left| + k] == t[x..y][|left| + k] == f[k];
    assert IsMarker(t, p);
  }

  /** A marker is in the list, so it is not between two neighbours of it, nor before the first. */
  lemma MarkerOutside(t: bytes, n: nat, p: nat)
    requires p < |t| && IsMarker(t, p) && n < |Markers(t, 0, |t|)|
    ensures var ms := Markers(t, 0, |t|); p <= ms[n].pos || EndOf(t, ms, n) <= p
    ensures Markers(t, 0, |t|)[0].pos <= p
  {
    hide Markers, IsMarker;
    MarkersMeaning(t, 0, |t|);
    var ms := Markers(t, 0, |t|);
    var k :| 0 <= k < |ms| && ms[k] == MarkerAt(t, p);
    assert ms[k].pos == p;
  }

  /** No marker after white space inside an answer that was read. */
  lemma {:induction false} AnswerInner(t: bytes, ms: seq<Marker>, n: nat, letter: byte, i: nat)
    requires ms == Markers(t, 0, |t|) && Spaced(t, ms) && n <= |ms| && 0 < i < |AnswerAt(t, ms, n, letter)|
    ensures !IsMarker(AnswerAt(t, ms, n, letter), i)
    decreases n
  {
    hide Trim, Markers, IsMarker;
    if ms[n - 1].letter == letter {
      var x, y := ms[n - 1].pos + Skip(ms[n - 1]), EndOf(t, ms, n - 1);
      if IsMarker(TextOf(t, ms, n - 1), i) {
        PieceInner(t, x, y, i);
        var p :| x < p < y && IsMarker(t, p);
        MarkerOutside(t, n - 1, p);
      }
    } else {
      AnswerInner(t, ms, n - 1, letter, i);
    }
  }

  lemma QuestionInner(t: bytes, i: nat)
    requires var ms := Markers(t, 0, |t|); |ms| > 0 && ms[0].pos <= |t| && 0 < i < |Trim(t[..ms[0].pos])|
    ensures !IsMarker(Trim(t[..Markers(t, 0, |t|)[0].pos]), i)
  {
    hide Trim, Markers, IsMarker;
    var ms := Markers(t, 0, |t|);
    var y := ms[0].pos;
    assert t[0..y] == t[..y];
    if IsMarker(Trim(t[..y]), i) {
      PieceInner(t, 0, y, i);
      var p :| 0 < p < y && IsMarker(t, p);
      MarkerOutside(t, 0, p);
    }
  }

  /** A question that was read has no marker after white space in any field. */
  lemma ReadInner(t: bytes, q: Question)
    requires ParsedRest(t) == Some(q)
    ensures |q.options| == 4
    ensures forall i :: 0 < i < |q.question| ==> !IsMarker(q.question, i)
    ensures forall k, i :: 0 <= k < 4 && 0 < i < |q.options[k]| ==> !IsMarker(q.options[k], i)
  {
    hide Trim, Markers, IsMarker, Spaced, AnswerAt, CorrectAt;
    var ms := Markers(t, 0, |t|);
    MarkersSpaced(t);
    MarkersMeaning(t, 0, |t|);
    forall i | 0 < i < |q.question| ensures !IsMarker(q.question, i) {
      QuestionInner(t, i);
    }
    forall k, i | 0 <= k < 4 && 0 < i < |q.options[k]| ensures !IsMarker(q.options[k], i) {
      AnswerInner(t, ms, |ms|, Letter(k), i);
    }
  }

  // ---------- A marker at the start of a field ----------

  /** The answers from j on stand somewhere in a written line. */
  lemma {:induction false} AnswersStandSomewhere(q: Question, j: nat) returns (base: nat)
    requires j <= 4 && |q.options| == 4
    ensures 0 < base && AnswersStand(RestOf(q), base, q, j)
  {
    hide Answers, AnswersStand, RestOf, Glue;
    if j == 0 {
      RestParts(q);
      base := 1 + |q.question|;
    } else {
      var before := AnswersStandSomewhere(q, j - 1);
      AnswerParts(RestOf(q), before, q, j - 1);
      base := before + |Glue(q, j - 1)| + |q.options[j - 1]|;
    }
  }

  /** An answer that starts with a marker cuts its own written marker off: the answer is lost. */
  lemma StartMarkerLost(q: Question, j: nat)
    requires j < 4 && Valid(q) && IsMarker(q.options[j], 0)
    requires forall i :: 0 < i < |q.options[j]| ==> !IsMarker(q.options[j], i)
    requires forall k :: j < k < 4 ==> MarkerFree(q.options[k])
    ensures ParsedRest(RestOf(q)) != Some(q)
  {
    hide Trim, Markers, IsMarker, MarkerAt, MarkerFree, Answers, AnswersStand, AnswerAt, CorrectAt, RestOf, Spaced, Glue;
    hide WrittenMarks, TextOf;
    var t := RestOf(q);
    var base := AnswersStandSomewhere(q, j);
    var a := base + |Glue(q, j)|;
    AnswerParts(t, base, q, j);
    var ms, n, b := Markers(t, 0, |t|), |Markers(t, 0, base)|, a + |q.options[j]|;
    CutMarkers(t, base, q, j);
    MarkersSpaced(t);
    var own, first := ms[n], ms[n + 1];
    forall i | n + 2 <= i < |ms| ensures ms[i].letter != Letter(j) {
      WrittenMarksAt(q, j + 1, b, i - n - 2);
      assert ms[i] == ms[n + 2..][i - n - 2];
    }
    AnswerSkips(t, ms, n + 2, |ms|, Letter(j));
    LastAnswer(t, ms, n + 1, Letter(j));
    LastAnswer(t, ms, n, Letter(j));
    if j < 3 {
      WrittenMarksAt(q, j + 1, b, 0);
      assert ms[n + 2] == ms[n + 2..][0];
    } else {
      AnswersEnd(t, b, q);
    }
    if first.letter == Letter(j) {
      ShorterText(t, ms, n + 1, a, b);
    } else {
      EmptyText(t, base, q, j, ms, n);
    }
    if ParsedRest(t) == Some(q) {
      AnswerIs(t, q, j);
    }
  }

  /** The marker list of a line whose j-th answer starts with its only marker. */
  lemma CutMarkers(t: bytes, base: nat, q: Question, j: nat)
    requires j < 4 && Valid(q) && IsMarker(q.options[j], 0) && AnswersStand(t, base, q, j)
    requires forall i :: 0 < i < |q.options[j]| ==> !IsMarker(q.options[j], i)
    requires forall k :: j < k < 4 ==> MarkerFree(q.options[k])
    ensures var ms, n, a := Markers(t, 0, |t|), |Markers(t, 0, base)|, base + |Glue(q, j)|;
            && |ms| == n + 2 + (3 - j) && ms[n] == Marker(base + 1, Letter(j), Letter(j) == q.correct)
            && ms[n + 1].pos == a && ms[n + 2..] == WrittenMarks(q, j + 1, a + |q.options[j]|)
  {
    hide Trim, Markers, IsMarker, MarkerAt, MarkerFree, Answers, AnswersStand, Glue, WrittenMarks;
    var a, f := base + |Glue(q, j)|, q.options[j];
    AnswerParts(t, base, q, j);
    GlueMarkers(t, base, q, j);
    forall p | a <= p < a + |f| ensures IsMarker(t, p) <==> p == a {
      FieldMarkers(t, a, f, p - a);
    }
    OneMarkerIn(t, a, a + |f|);
    MarkerPos(t, a);
    AnswersMarkers(t, a + |f|, q, j + 1);
    MarkersSplit(t, 0, base, |t|);
    MarkersSplit(t, base, a, |t|);
    MarkersSplit(t, a, a + |f|, |t|);
    var pre, own, first, rest := Markers(t, 0, base), Markers(t, base, a), Markers(t, a, a + |f|), WrittenMarks(q, j + 1, a + |f|);
    assert Markers(t, 0, |t|) == pre + (own + (first + rest));
    assert Markers(t, 0, |t|)[|pre| + 2..] == rest;
  }

  lemma MarkerPos(t: bytes, i: nat)
    requires i < |t| && IsMarker(t, i)
    ensures MarkerAt(t, i).pos == i
  {
    hide IsMarker;
  }

  /** The text after a field's own first marker is shorter than the field. */
  lemma ShorterText(t: bytes, ms: seq<Marker>, n: nat, a: nat, b: nat)
    requires n < |ms| && Spaced(t, ms) && ms[n].pos == a < b <= |t|
    requires EndOf(t, ms, n) <= b + 1
    ensures |TextOf(t, ms, n)| < b - a
  {
    hide Trim;
  }

  lemma EmptyText(t: bytes, base: nat, q: Question, j: nat, ms: seq<Marker>, n: nat)
    requires j < 4 && base + |Glue(q, j)| <= |t| && t[base..base + |Glue(q, j)|] == Glue(q, j)
    requires n + 1 < |ms| && Spaced(t, ms) && ms[n] == Marker(base + 1, Letter(j), Letter(j) == q.correct)
    requires ms[n + 1].pos == base + |Glue(q, j)|
    ensures TextOf(t, ms, n) == ""
  {
    hide Trim;
    GlueShape(q, j);
    var g := |Glue(q, j)|;
    assert t[base..base + g][g - 1] == t[base + g - 1];
    assert t[base + g - 1..base + g] == " ";
    TrimFixed("");
    TrimPadded(" ", "", "");
    assert " " + "" + "" == " ";
  }

  lemma AnswerIs(t: bytes, q: Question, j: nat)
    requires j < 4 && ParsedRest(t) == Some(q)
    ensures var ms := Markers(t, 0, |t|);
            |q.options| == 4 && Spaced(t, ms) && AnswerAt(t, ms, |ms|, Letter(j)) == q.options[j] != ""
  {
    hide Trim, Markers, AnswerAt, CorrectAt, Spaced;
    MarkersSpaced(t);
  }
}
