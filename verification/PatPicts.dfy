/** PICTS lists: what the parser makes of every written list, and which lists it reads as they are meant. */
module PatPicts {
  import opened Wrappers
  import opened Bytes
  import opened Numbers
  import opened PatScanner
  import opened PatWords
  import opened PatRefs
  import opened PatLayout
  import opened PatMeaning
  import opened PatReading

  // ---------- What the parser makes of a list ----------

  /** The ids taken, and whether the closing word was seen or swallowed as a point. */
  datatype Reading = Reading(ids: seq<int16>, closed: bool)

  function Then(id: int16, r: Reading): Reading {
    Reading([id] + r.ids, r.closed)
  }

  function ReadInStep(entries: seq<PictsEntry>): Reading
    decreases |entries|, 1
  {
    if entries == [] then Reading([], true)
    else
      var e, rest := entries[0], entries[1..];
      Then(e.id, if !e.comma then ReadInStep(rest)
                 else if e.at.One? then ReadOutOfStep(rest)
                 else ReadTaken(IdLike(e.at.v), rest))
  }

  /** The first id is about to be read as a point. */
  function ReadOutOfStep(entries: seq<PictsEntry>): Reading
    decreases |entries|, 1
  {
    if entries == [] then Reading([], false) else ReadTaken(TakenFor(entries[0]), entries[1..])
  }

  function ReadTaken(taken: Option<int16>, entries: seq<PictsEntry>): Reading
    decreases |entries|, 2
  {
    if taken.None? then ReadInStep(entries) else Then(taken.value, ReadOutOfStep(entries))
  }

  /** What comes of a reading in front of the closing word. */
  function Outcome(ps: seq<Placed>, tail: bytes, ids: seq<int16>, r: Reading): PictsEnd
    requires ps != [] && IsTail(tail)
  {
    var after := At(ps[1..], tail, TokenOf(ps[0].atom));
    if r.closed then PictsEnd(ids + r.ids, after) else PictsLoop(after, ids + r.ids)
  }

  // ---------- Which readings are what was meant ----------

  /** Out of step, the parser misses an id for good if it ever finds the closing word. */
  lemma {:induction false} InStepCount(entries: seq<PictsEntry>)
    ensures ReadInStep(entries).closed ==> |ReadInStep(entries).ids| <= |entries|
    ensures ReadOutOfStep(entries).closed ==> |ReadOutOfStep(entries).ids| < |entries|
    decreases |entries|
  {
    if entries != [] {
      InStepCount(entries[1..]);
    }
  }

  lemma {:induction false} MeantInStep(entries: seq<PictsEntry>)
    ensures ReadInStep(entries) == Reading(EntryIds(entries), true) <==> InStep(entries)
    decreases |entries|, 1
  {
    if entries != [] {
      var e, rest := entries[0], entries[1..];
      assert EntryIds(entries) == [e.id] + EntryIds(rest);
      if !e.comma {
        MeantInStep(rest);
        ThenSame(e.id, e.id, ReadInStep(rest), Reading(EntryIds(rest), true));
      } else if e.at.One? {
        InStepCount(rest);
        ThenSame(e.id, e.id, ReadOutOfStep(rest), Reading(EntryIds(rest), true));
      } else {
        MeantTaken(IdLike(e.at.v), rest);
        ThenSame(e.id, e.id, ReadTaken(IdLike(e.at.v), rest), Reading(EntryIds(rest), true));
      }
    }
  }

  lemma {:induction false} MeantTaken(taken: Option<int16>, entries: seq<PictsEntry>)
    ensures ReadTaken(taken, entries) == Reading(EntryIds(entries), true) <==> Relayed(taken, entries)
    decreases |entries|, 2
  {
    if taken.None? {
      MeantInStep(entries);
    } else if entries != [] {
      var e, rest := entries[0], entries[1..];
      assert EntryIds(entries) == [e.id] + EntryIds(rest);
      MeantTaken(TakenFor(e), rest);
      ThenSame(taken.value, e.id, ReadTaken(TakenFor(e), rest), Reading(EntryIds(rest), true));
    }
  }

  lemma ThenSame(a: int16, b: int16, r: Reading, q: Reading)
    ensures Then(a, r) == Then(b, q) <==> a == b && r == q
  {
    assert ([a] + r.ids)[1..] == r.ids && ([b] + q.ids)[1..] == q.ids;
    assert ([a] + r.ids)[0] == a && ([b] + q.ids)[0] == b;
  }

  // ---------- Turns of the loop ----------

  lemma PictsSame(s1: Src, s2: Src, ids: seq<int16>)
    requires Ok(s1) && Ok(s2) && GetToken(s1) == GetToken(s2)
    ensures PictsLoop(s1, ids) == PictsLoop(s2, ids)
  {
    hide GetToken, WordOf, Atoi, ReadPoint;
  }

  lemma PointSame(s1: Src, s2: Src)
    requires Ok(s1) && Ok(s2) && GetToken(s1) == GetToken(s2)
    ensures ReadPoint(s1) == ReadPoint(s2)
  {
    hide GetToken, Atoi, StartsNumber;
  }

  predicate IsClose(w: Word) {
    w.EndPicts? || w.EndPictIds?
  }

  lemma PictsClosed(ps: seq<Placed>, tail: bytes, token: bytes, ids: seq<int16>)
    requires LayoutOk(ps) && ps != [] && IsTail(tail) && IsClose(WordOf(TokenOf(ps[0].atom)))
    ensures PictsLoop(At(ps, tail, token), ids) == PictsEnd(ids, At(ps[1..], tail, TokenOf(ps[0].atom)))
  {
    hide GetToken, WordOf, At, TokenOf, LayoutOk;
    TakeAtom(ps, tail, token);
  }

  /** A token that is neither the closing word nor an id is passed over. */
  lemma PictsPassed(ps: seq<Placed>, tail: bytes, token: bytes, ids: seq<int16>)
    requires LayoutOk(ps) && ps != [] && IsTail(tail) && !IsClose(WordOf(TokenOf(ps[0].atom)))
    requires !Atoi(TokenOf(ps[0].atom)).ok || IdLike(Atoi(TokenOf(ps[0].atom)).v).None?
    ensures PictsLoop(At(ps, tail, token), ids) == PictsLoop(At(ps[1..], tail, TokenOf(ps[0].atom)), ids)
  {
    hide GetToken, WordOf, At, TokenOf, LayoutOk, Atoi;
    TakeAtom(ps, tail, token);
  }

  /** One turn of the loop on an id. */
  lemma PictsTurn(ps: seq<Placed>, tail: bytes, token: bytes, ids: seq<int16>, id: int16)
    requires LayoutOk(ps) && |ps| >= 2 && IsTail(tail) && ps[0].atom == Number(id)
    ensures PictsLoop(At(ps, tail, token), ids) ==
            PictsLoop(ReadPoint(AfterPictId(At(ps[2..], tail, TokenOf(ps[1].atom)))).s, ids + [id])
  {
    hide GetToken, WordOf, ReadPoint, AfterPictId, At, Atoi, Dec, Apart, AtomOk, GapsOk;
    TakeAtom(ps, tail, token);
    TakeAtom(ps[1..], tail, Dec(id));
    assert ps[1..][1..] == ps[2..];
    NumberIsNoWord(id);
    DecRoundTrip(id);
  }

  lemma NumberIsNoWord(n: int64)
    ensures WordOf(Dec(n)) == Other
  {
    hide WordOf, Digits;
    NoLetterNoWord(Dec(n));
  }

  lemma CommaIsNoId()
    ensures WordOf(TokenOf(Comma)) == Other && !Atoi(TokenOf(Comma)).ok
  {
    hide WordOf;
    NoLetterNoWord(",");
  }

  /** Without a comma the point is read where it starts. */
  lemma PointAtOnce(ps: seq<Placed>, tail: bytes)
    requires LayoutOk(ps) && ps != [] && ps[0].atom != Comma && IsTail(tail)
    ensures ReadPoint(AfterPictId(At(ps[1..], tail, TokenOf(ps[0].atom)))) == ReadPoint(At(ps, tail, ""))
  {
    hide GetToken, ReadPoint, At, TokenOf, Apart;
    NotComma(ps[0].atom);
    PushedBack(ps, tail, "");
    PointSame(AfterPictId(At(ps[1..], tail, TokenOf(ps[0].atom))), At(ps, tail, ""));
  }

  /** With a comma the token after it is gone. */
  lemma PointTooLate(ps: seq<Placed>, tail: bytes)
    requires LayoutOk(ps) && |ps| >= 2 && ps[0].atom == Comma && IsTail(tail)
    ensures AfterPictId(At(ps[1..], tail, TokenOf(ps[0].atom))) == At(ps[2..], tail, TokenOf(ps[1].atom))
  {
    hide GetToken, At, Apart;
    TakeAtom(ps[1..], tail, ",");
    assert ps[1..][1..] == ps[2..];
  }

  // ---------- Reading written lists ----------

  function LastOf(p: Point): int64 {
    if p.One? then p.h else p.v
  }

  function Lead(e: PictsEntry): seq<Part> {
    [Num(e.id)] + (if e.comma then [Just(Comma)] else [])
  }

  /** Where the atoms of an entry stand. */
  lemma EntrySpelled(ps: seq<Placed>, e: PictsEntry, rest: seq<Part>)
    requires Spells(ps, EntryParts(e) + rest)
    ensures var n := |EntryParts(e)|; var k := if e.comma then 2 else 1;
            && n == k + (if e.at.One? then 1 else 3) && n <= |ps|
            && ps[0].atom == Number(e.id) && (e.comma ==> ps[1].atom == Comma) && ps[k].atom == Number(e.at.h)
            && (e.at.Two? ==> ps[k + 1].atom == Comma) && Spells(ps[k..], PointParts(e.at))
            && Spells(ps[n - 1..], [Num(LastOf(e.at))] + rest) && Spells(ps[n..], rest)
  {
    hide LayoutOk, PointParts;
    var k := |Lead(e)|;
    var n := k + |PointParts(e.at)|;
    PointSize(e.at);
    assert EntryParts(e) == Lead(e) + PointParts(e.at);
    assert EntryParts(e) + rest == Lead(e) + (PointParts(e.at) + rest);
    SpellsBoth(ps, Lead(e), PointParts(e.at) + rest);
    assert Writes(ps[0].atom, Lead(e)[0]) && (e.comma ==> Writes(ps[1].atom, Lead(e)[1]));
    PointSpelled(ps[k..], e.at, rest);
    Onward(ps, k, |PointParts(e.at)| - 1);
    Onward(ps, k, |PointParts(e.at)|);
  }

  lemma PointSpelled(ps: seq<Placed>, p: Point, rest: seq<Part>)
    requires Spells(ps, PointParts(p) + rest)
    ensures ps[0].atom == Number(p.h) && (p.Two? ==> ps[1].atom == Comma) && Spells(ps, PointParts(p))
    ensures var n := |PointParts(p)|; Spells(ps[n - 1..], [Num(LastOf(p))] + rest) && Spells(ps[n..], rest)
  {
    hide LayoutOk;
    var n := |PointParts(p)|;
    SpellsBoth(ps, PointParts(p), rest);
    assert Writes(ps[0].atom, PointParts(p)[0]);
    if p.Two? {
      assert Writes(ps[1].atom, PointParts(p)[1]);
      assert PointParts(p) + rest == [Num(p.h), Just(Comma)] + ([Num(p.v)] + rest);
      SpellsBoth(ps, [Num(p.h), Just(Comma)], [Num(p.v)] + rest);
    } else {
      assert ps[0..] == ps;
    }
  }

  /** The first entry of a list, and where the list's closing word stands. */
  lemma EntryAt(ps: seq<Placed>, entries: seq<PictsEntry>, close: Word)
    requires Spells(ps, PictsParts(entries, close)) && entries != []
    ensures var e := entries[0]; var rest := PictsParts(entries[1..], close);
            var n := |EntryParts(e)|; var k := if e.comma then 2 else 1;
            && n == k + (if e.at.One? then 1 else 3) && n < |ps| && LayoutOk(ps)
            && ps[0].atom == Number(e.id) && (e.comma ==> ps[1].atom == Comma) && ps[k].atom == Number(e.at.h)
            && (e.at.Two? ==> ps[k + 1].atom == Comma) && Spells(ps[k..], PointParts(e.at))
            && Spells(ps[n - 1..], [Num(LastOf(e.at))] + rest) && Spells(ps[n..], rest)
            && |PictsParts(entries, close)| == n + |rest| <= |ps|
            && ps[n..][|rest| - 1..] == ps[|PictsParts(entries, close)| - 1..]
            && ps[n - 1..][|rest|..] == ps[|PictsParts(entries, close)| - 1..]
  {
    hide LayoutOk, PointParts, EntryParts, Writes, Spells, PictsParts;
    PictsCons(ps, entries, close);
    var n, rest := |EntryParts(entries[0])|, PictsParts(entries[1..], close);
    EntrySpelled(ps, entries[0], rest);
    Onward(ps, n, |rest| - 1);
    Onward(ps, n - 1, |rest|);
  }

  lemma PictsCons(ps: seq<Placed>, entries: seq<PictsEntry>, close: Word)
    requires Spells(ps, PictsParts(entries, close)) && entries != []
    ensures var rest := PictsParts(entries[1..], close);
            && Spells(ps, EntryParts(entries[0]) + rest) && LayoutOk(ps)
            && |PictsParts(entries, close)| == |EntryParts(entries[0])| + |rest| <= |ps|
  {
    hide LayoutOk, PointParts, EntryParts, Writes;
  }

  /** A list starts with an id or with its closing word. */
  lemma PictsStart(ps: seq<Placed>, entries: seq<PictsEntry>, close: Word)
    requires Spells(ps, PictsParts(entries, close))
    ensures ps != [] && ps[0].atom != Comma
    ensures entries == [] ==> ps[0].atom.Bare? && Writes(ps[0].atom, WordPart(close))
  {
    hide LayoutOk, Spelling;
    assert Writes(ps[0].atom, PictsParts(entries, close)[0]);
    if entries != [] {
      assert EntryParts(entries[0])[0] == Num(entries[0].id);
    }
  }

  lemma OutcomeThen(ps: seq<Placed>, tail: bytes, ids: seq<int16>, id: int16, r: Reading)
    requires ps != [] && IsTail(tail)
    ensures Outcome(ps, tail, ids + [id], r) == Outcome(ps, tail, ids, Then(id, r))
  {
    hide PictsLoop, At;
    assert ids + [id] + r.ids == ids + ([id] + r.ids);
  }

  /** In front of a number that is taken for an id when it can be one. */
  lemma {:induction false} TakenRead(ps: seq<Placed>, tail: bytes, token: bytes, ids: seq<int16>, n: int64,
                                     entries: seq<PictsEntry>, close: Word)
    requires Spells(ps, [Num(n)] + PictsParts(entries, close)) && IsTail(tail) && IsClose(close)
    ensures PictsLoop(At(ps, tail, token), ids) ==
            Outcome(ps[|PictsParts(entries, close)|..], tail, ids, ReadTaken(IdLike(n), entries))
    decreases |entries|, 2
  {
    hide At, PictsLoop, ReadPoint, AfterPictId, LayoutOk, WordOf, PictsParts, IsTail, Outcome, Atoi, Dec;
    SpellsBoth(ps, [Num(n)], PictsParts(entries, close));
    assert Writes(ps[0].atom, [Num(n)][0]);
    Onward(ps, 1, |PictsParts(entries, close)| - 1);
    if IdLike(n).None? {
      NumberIsNoWord(n);
      DecRoundTrip(n);
      PictsPassed(ps, tail, token, ids);
      InStepRead(ps[1..], tail, TokenOf(ps[0].atom), ids, entries, close);
    } else {
      PictsStart(ps[1..], entries, close);
      PictsTurn(ps, tail, token, ids, n);
      PointAtOnce(ps[1..], tail);
      assert ps[1..][1..] == ps[2..];
      OutOfStepRead(ps[1..], tail, "", ids + [n], entries, close);
      OutcomeThen(ps[|PictsParts(entries, close)|..], tail, ids, n, ReadOutOfStep(entries));
    }
  }

  /** In front of an entry whose own id is about to be read as a point. */
  lemma {:induction false} OutOfStepRead(ps: seq<Placed>, tail: bytes, token: bytes, ids: seq<int16>,
                                         entries: seq<PictsEntry>, close: Word)
    requires Spells(ps, PictsParts(entries, close)) && IsTail(tail) && IsClose(close)
    ensures PictsLoop(ReadPoint(At(ps, tail, token)).s, ids) ==
            Outcome(ps[|PictsParts(entries, close)| - 1..], tail, ids, ReadOutOfStep(entries))
    decreases |entries|, 1
  {
    hide *;
    if entries == [] {
      CloseSwallowed(ps, tail, token, ids, close);
    } else if entries[0].comma {
      CommaOutOfStep(ps, tail, token, ids, entries, close);
    } else {
      PlainOutOfStep(ps, tail, token, ids, entries, close);
    }
  }

  lemma {:induction false} CommaOutOfStep(ps: seq<Placed>, tail: bytes, token: bytes, ids: seq<int16>,
                                          entries: seq<PictsEntry>, close: Word)
    requires Spells(ps, PictsParts(entries, close)) && IsTail(tail) && IsClose(close)
    requires entries != [] && entries[0].comma
    ensures PictsLoop(ReadPoint(At(ps, tail, token)).s, ids) ==
            Outcome(ps[|PictsParts(entries, close)| - 1..], tail, ids, ReadOutOfStep(entries))
    decreases |entries|, 0
  {
    hide At, PictsLoop, ReadPoint, LayoutOk, IsTail, Spelling, TokenOf, GetToken, WordOf, EntryParts, PointParts, Writes;
    hide AfterPictId, Dec, Atoi, Spells, PictsParts, Outcome, ReadInStep, IdLike;
    var e, rest := entries[0], entries[1..];
    var n := |EntryParts(e)|;
    EntryAt(ps, entries, close);
    var end := ps[|PictsParts(entries, close)| - 1..];
    IdPoint(ps, tail, token, e);
    PictsSame(ReadPoint(At(ps, tail, token)).s, At(ps[3..], tail, ""), ids);
    if e.at.One? {
      InStepRead(ps[n..], tail, "", ids, rest, close);
    } else {
      CommaIsNoId();
      LayoutFrom(ps, 3);
      PictsPassed(ps[3..], tail, "", ids);
      assert ps[3..][1..] == ps[4..];
      TakenRead(ps[n - 1..], tail, TokenOf(Comma), ids, e.at.v, rest, close);
    }
  }

  /** An id, a comma and a coordinate are read as one point. */
  lemma IdPoint(ps: seq<Placed>, tail: bytes, token: bytes, e: PictsEntry)
    requires LayoutOk(ps) && |ps| > 3 && IsTail(tail)
    requires ps[0].atom == Number(e.id) && ps[1].atom == Comma && ps[2].atom == Number(e.at.h)
    ensures GetToken(ReadPoint(At(ps, tail, token)).s) == GetToken(At(ps[3..], tail, ""))
  {
    hide At, ReadPoint, GetToken, LayoutOk, IsTail;
    var p := Two(e.id, e.at.h);
    assert Spells(ps, PointParts(p));
    TakePoint(ps, tail, token, p);
  }

  lemma {:induction false} PlainOutOfStep(ps: seq<Placed>, tail: bytes, token: bytes, ids: seq<int16>,
                                          entries: seq<PictsEntry>, close: Word)
    requires Spells(ps, PictsParts(entries, close)) && IsTail(tail) && IsClose(close)
    requires entries != [] && !entries[0].comma
    ensures PictsLoop(ReadPoint(At(ps, tail, token)).s, ids) ==
            Outcome(ps[|PictsParts(entries, close)| - 1..], tail, ids, ReadOutOfStep(entries))
    decreases |entries|, 0
  {
    hide At, PictsLoop, ReadPoint, LayoutOk, IsTail, Spelling, TokenOf, GetToken, WordOf, EntryParts, PointParts, Writes;
    hide AfterPictId, Dec, Atoi, Spells, PictsParts, Outcome, ReadInStep;
    var e, rest := entries[0], entries[1..];
    var n := |EntryParts(e)|;
    EntryAt(ps, entries, close);
    var end := ps[|PictsParts(entries, close)| - 1..];
    IdAlone(ps, tail, token, e);
    PictsSame(ReadPoint(At(ps, tail, token)).s, At(ps[1..], tail, ""), ids);
    if e.at.One? {
      TakenRead(ps[1..], tail, "", ids, e.at.h, rest, close);
    } else if IdLike(e.at.h).None? {
      PlainPassed(ps, tail, ids, e.at.h);
      TakenRead(ps[n - 1..], tail, TokenOf(Comma), ids, e.at.v, rest, close);
    } else {
      LayoutFrom(ps, 1);
      assert ps[1..][3..] == ps[4..] && ps[1..][1] == ps[2] && ps[1..][2] == ps[3];
      CommaTurn(ps[1..], tail, "", ids, e.at.h);
      OutOfStepRead(ps[n..], tail, TokenOf(ps[3].atom), ids + [e.at.h], rest, close);
      OutcomeThen(end, tail, ids, e.at.h, ReadOutOfStep(rest));
    }
  }

  lemma IdAlone(ps: seq<Placed>, tail: bytes, token: bytes, e: PictsEntry)
    requires LayoutOk(ps) && |ps| > 1 && IsTail(tail)
    requires ps[0].atom == Number(e.id) && ps[1].atom == Number(e.at.h)
    ensures GetToken(ReadPoint(At(ps, tail, token)).s) == GetToken(At(ps[1..], tail, ""))
  {
    hide At, ReadPoint, GetToken, LayoutOk, IsTail;
    var p := One(e.id);
    assert Spells(ps, PointParts(p));
    TakePoint(ps, tail, token, p);
  }

  /** A number that is no id and the comma after it are passed over. */
  lemma PlainPassed(ps: seq<Placed>, tail: bytes, ids: seq<int16>, h: int64)
    requires LayoutOk(ps) && |ps| > 3 && IsTail(tail) && IdLike(h).None?
    requires ps[1].atom == Number(h) && ps[2].atom == Comma
    ensures PictsLoop(At(ps[1..], tail, ""), ids) == PictsLoop(At(ps[3..], tail, TokenOf(Comma)), ids)
  {
    hide At, PictsLoop, WordOf, Apart, PlacedOk, IsTail, Atoi, Dec;
    NumberIsNoWord(h);
    DecRoundTrip(h);
    PictsPassed(ps[1..], tail, "", ids);
    CommaIsNoId();
    assert ps[1..][1..] == ps[2..] && ps[2..][1..] == ps[3..];
    PictsPassed(ps[2..], tail, TokenOf(Number(h)), ids);
  }

  /** In front of an entry, in step. */
  lemma {:induction false} InStepRead(ps: seq<Placed>, tail: bytes, token: bytes, ids: seq<int16>,
                                      entries: seq<PictsEntry>, close: Word)
    requires Spells(ps, PictsParts(entries, close)) && IsTail(tail) && IsClose(close)
    ensures PictsLoop(At(ps, tail, token), ids) ==
            Outcome(ps[|PictsParts(entries, close)| - 1..], tail, ids, ReadInStep(entries))
    decreases |entries|, 1
  {
    hide *;
    if entries == [] {
      CloseSeen(ps, tail, token, ids, close);
    } else if entries[0].comma {
      CommaInStep(ps, tail, token, ids, entries, close);
    } else {
      PlainInStep(ps, tail, token, ids, entries, close);
    }
  }

  lemma CloseSeen(ps: seq<Placed>, tail: bytes, token: bytes, ids: seq<int16>, close: Word)
    requires Spells(ps, PictsParts([], close)) && IsTail(tail) && IsClose(close)
    ensures PictsLoop(At(ps, tail, token), ids) == Outcome(ps[|PictsParts([], close)| - 1..], tail, ids, ReadInStep([]))
  {
    hide At, PictsLoop, LayoutOk, IsTail, Spelling, TokenOf, WordOf, Writes;
    PictsStart(ps, [], close);
    assert ps[0..] == ps;
    WordToken(ps, close);
    PictsClosed(ps, tail, token, ids);
    assert ids + [] == ids;
  }

  /** Out of step, the closing word is taken for a point. */
  lemma CloseSwallowed(ps: seq<Placed>, tail: bytes, token: bytes, ids: seq<int16>, close: Word)
    requires Spells(ps, PictsParts([], close)) && IsTail(tail) && IsClose(close)
    ensures PictsLoop(ReadPoint(At(ps, tail, token)).s, ids) ==
            Outcome(ps[|PictsParts([], close)| - 1..], tail, ids, ReadOutOfStep([]))
  {
    hide At, PictsLoop, ReadPoint, LayoutOk, IsTail, Spelling, TokenOf, Writes;
    PictsStart(ps, [], close);
    assert ps[0..] == ps;
    TakeNoPoint(ps, tail, token);
    assert ids + [] == ids;
  }

  lemma {:induction false} PlainInStep(ps: seq<Placed>, tail: bytes, token: bytes, ids: seq<int16>,
                                       entries: seq<PictsEntry>, close: Word)
    requires Spells(ps, PictsParts(entries, close)) && IsTail(tail) && IsClose(close)
    requires entries != [] && !entries[0].comma
    ensures PictsLoop(At(ps, tail, token), ids) ==
            Outcome(ps[|PictsParts(entries, close)| - 1..], tail, ids, ReadInStep(entries))
    decreases |entries|, 0
  {
    hide At, PictsLoop, ReadPoint, LayoutOk, IsTail, Spelling, TokenOf, GetToken, WordOf, EntryParts, PointParts, Writes;
    hide AfterPictId, Dec, Atoi, Spells, PictsParts, Outcome, ReadTaken, ReadOutOfStep, Then;
    var e, rest := entries[0], entries[1..];
    var n := |EntryParts(e)|;
    EntryAt(ps, entries, close);
    var end := ps[|PictsParts(entries, close)| - 1..];
    PictsStart(ps[n..], rest, close);
    PictsTurn(ps, tail, token, ids, e.id);
    LayoutFrom(ps, 1);
    PointAtOnce(ps[1..], tail);
    assert ps[1..][1..] == ps[2..];
    PointSize(e.at);
    TakePoint(ps[1..], tail, "", e.at);
    Onward(ps, 1, n - 1);
    PictsSame(ReadPoint(At(ps[1..], tail, "")).s, At(ps[n..], tail, ""), ids + [e.id]);
    InStepRead(ps[n..], tail, "", ids + [e.id], rest, close);
    OutcomeThen(end, tail, ids, e.id, ReadInStep(rest));
  }

  lemma PointSize(p: Point)
    ensures |PointParts(p)| == if p.One? then 1 else 3
  {
  }

  /** After a comma the loop skips a token and reads a point from the one after it. */
  lemma CommaTurn(ps: seq<Placed>, tail: bytes, token: bytes, ids: seq<int16>, id: int16)
    requires LayoutOk(ps) && |ps| >= 3 && IsTail(tail) && ps[0].atom == Number(id) && ps[1].atom == Comma
    ensures PictsLoop(At(ps, tail, token), ids) ==
            PictsLoop(ReadPoint(At(ps[3..], tail, TokenOf(ps[2].atom))).s, ids + [id])
  {
    hide At, PictsLoop, ReadPoint, LayoutOk, IsTail, AfterPictId, TokenOf;
    PictsTurn(ps, tail, token, ids, id);
    assert ps[1..][1..] == ps[2..] && ps[1..][2..] == ps[3..];
    LayoutFrom(ps, 1);
    PointTooLate(ps[1..], tail);
  }

  lemma {:induction false} CommaInStep(ps: seq<Placed>, tail: bytes, token: bytes, ids: seq<int16>,
                                       entries: seq<PictsEntry>, close: Word)
    requires Spells(ps, PictsParts(entries, close)) && IsTail(tail) && IsClose(close)
    requires entries != [] && entries[0].comma
    ensures PictsLoop(At(ps, tail, token), ids) ==
            Outcome(ps[|PictsParts(entries, close)| - 1..], tail, ids, ReadInStep(entries))
    decreases |entries|, 0
  {
    hide At, PictsLoop, ReadPoint, LayoutOk, IsTail, Spelling, TokenOf, GetToken, WordOf, EntryParts, PointParts, Writes;
    hide AfterPictId, Dec, Atoi, Spells, PictsParts, Outcome, ReadTaken, ReadOutOfStep, Then;
    var e, rest := entries[0], entries[1..];
    var n := |EntryParts(e)|;
    EntryAt(ps, entries, close);
    var end := ps[|PictsParts(entries, close)| - 1..];
    CommaTurn(ps, tail, token, ids, e.id);
    var t := TokenOf(ps[2].atom);
    if e.at.One? {
      OutOfStepRead(ps[n..], tail, t, ids + [e.id], rest, close);
      OutcomeThen(end, tail, ids, e.id, ReadOutOfStep(rest));
    } else {
      LayoutFrom(ps, 3);
      TakeNoPoint(ps[3..], tail, t);
      assert ps[3..][1..] == ps[4..];
      TakenRead(ps[n - 1..], tail, TokenOf(ps[3].atom), ids + [e.id], e.at.v, rest, close);
      OutcomeThen(end, tail, ids, e.id, ReadTaken(IdLike(e.at.v), rest));
    }
  }

  // ---------- Main results ----------

  lemma PictsOutcome(ps: seq<Placed>, tail: bytes, token: bytes, ids: seq<int16>, entries: seq<PictsEntry>, close: Word)
    requires Spells(ps, PictsParts(entries, close)) && IsTail(tail) && IsClose(close)
    ensures var n := |PictsParts(entries, close)|; var r := ReadInStep(entries);
            var after := At(ps[n..], tail, TokenOf(ps[n - 1].atom));
            PictsLoop(At(ps, tail, token), ids) ==
            if r.closed then PictsEnd(ids + r.ids, after) else PictsLoop(after, ids + r.ids)
  {
    hide At, PictsLoop, LayoutOk, IsTail, PictsParts, ReadInStep, Writes, TokenOf;
    InStepRead(ps, tail, token, ids, entries, close);
    Onward(ps, |PictsParts(entries, close)| - 1, 1);
  }

  /** A loop that takes a token ends past it. */
  lemma LoopMoves(s: Src, ids: seq<int16>)
    requires Ok(s) && GetToken(s).ok
    ensures Fuel(PictsLoop(s, ids).s) < Fuel(s)
  {
    hide GetToken, WordOf, Atoi, ReadPoint, AfterPictId;
  }

  /** A written list in a hotspot is read to its closing word, with exactly the ids of its entries, if and only
      if it is in step. */
  lemma PictsReadIff(ps: seq<Placed>, tail: bytes, token: bytes, ids: seq<int16>, entries: seq<PictsEntry>, close: Word)
    requires Spells(ps, PictsParts(entries, close)) && IsTail(tail) && IsClose(close)
    requires |PictsParts(entries, close)| < |ps|
    ensures var n := |PictsParts(entries, close)|;
            InStep(entries) <==>
            PictsLoop(At(ps, tail, token), ids) ==
            PictsEnd(ids + EntryIds(entries), At(ps[n..], tail, TokenOf(ps[n - 1].atom)))
  {
    hide At, PictsLoop, LayoutOk, IsTail, PictsParts, ReadInStep, Writes, InStep, TokenOf, GetToken, Ok;
    var n := |PictsParts(entries, close)|;
    var r := ReadInStep(entries);
    var after := At(ps[n..], tail, TokenOf(ps[n - 1].atom));
    PictsOutcome(ps, tail, token, ids, entries, close);
    MeantInStep(entries);
    if r.closed {
      assert (ids + r.ids)[|ids|..] == r.ids && (ids + EntryIds(entries))[|ids|..] == EntryIds(entries);
    } else {
      LayoutFrom(ps, n);
      TakeAtom(ps[n..], tail, TokenOf(ps[n - 1].atom));
      LoopMoves(after, ids + r.ids);
    }
  }

  /** The point of the comma: in 1,10,20 the second coordinate becomes a picture and the closing word is lost. */
  lemma CommaListLost(ps: seq<Placed>, tail: bytes, token: bytes)
    requires Spells(ps, PictsParts([PictsEntry(1, true, Two(10, 20))], EndPicts)) && IsTail(tail)
    ensures 6 <= |ps| && PictsLoop(At(ps, tail, token), []) == PictsLoop(At(ps[6..], tail, TokenOf(ps[5].atom)), [1, 20])
  {
    hide At, PictsLoop, LayoutOk, IsTail, Writes, TokenOf, PictsParts, ReadInStep;
    CommaListReading();
    PictsOutcome(ps, tail, token, [], [PictsEntry(1, true, Two(10, 20))], EndPicts);
    assert [] + [1, 20] == [1, 20];
  }

  lemma CommaListReading()
    ensures var entries := [PictsEntry(1, true, Two(10, 20))];
            |PictsParts(entries, EndPicts)| == 6 && ReadInStep(entries) == Reading([1, 20], false)
  {
    hide Spelling;
    var entries := [PictsEntry(1, true, Two(10, 20))];
    assert entries[1..] == [];
    assert [20] + ReadOutOfStep([]).ids == [20];
  }

  /** After a comma the second coordinate could be an id and is not the next one. */
  predicate NoEcho(entries: seq<PictsEntry>) {
    forall i :: 0 <= i < |entries| && entries[i].comma && entries[i].at.Two? ==>
      IdLike(entries[i].at.v).Some? && (i + 1 < |entries| ==> entries[i + 1].id != entries[i].at.v)
  }

  /** Save for such echoes, a list is in step if and only if no comma stands between an id and its point. */
  lemma {:induction false} NoEchoInStepIff(entries: seq<PictsEntry>)
    requires NoEcho(entries)
    ensures InStep(entries) <==> forall i :: 0 <= i < |entries| ==> !entries[i].comma
  {
    if entries != [] {
      var rest := entries[1..];
      assert forall i :: 0 <= i < |rest| ==> rest[i] == entries[i + 1];
      NoEchoInStepIff(rest);
      assert forall i :: 1 <= i < |entries| ==> entries[i] == rest[i - 1];
    }
  }

  /** No list of entries id,h,v with 16-bit coordinates is in step. */
  lemma {:induction false} AllCommasOutOfStep(entries: seq<PictsEntry>)
    requires forall i :: 0 <= i < |entries| ==>
               entries[i].comma && entries[i].at.Two? && IdLike(entries[i].at.v).Some?
    ensures InStep(entries) <==> entries == []
    ensures forall n: int16 :: !Relayed(Some(n), entries)
  {
    if entries != [] {
      AllCommasOutOfStep(entries[1..]);
    }
  }
}
