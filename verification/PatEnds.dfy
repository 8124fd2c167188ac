/** What the PAT parser makes of text that ends too early: a block counts as closed only by its own closing word,
    and nothing is read twice. */
module PatEnds {
  import opened Bytes
  import opened Numbers
  import opened PatScanner
  import opened PatWords
  import opened PatRefs

  /** Nothing is left but the zero byte that ends the text, and nothing was pushed back. */
  predicate AtEnd(s: Src) {
    !s.ungot && (s.rest == [] || s.rest[0] == NUL)
  }

  lemma {:induction false} NoTokenAtEnd(rest: bytes)
    requires Terminated(rest) && ScanToken(rest).NoToken?
    ensures ScanToken(rest).rest == [] || ScanToken(rest).rest[0] == NUL
    decreases |rest|
  {
    hide WordRun, PunctRun, ReadQuoted, IsWordByte, IsPunct, IsBracket;
    if rest != [] && rest[0] != NUL {
      if rest[0] == '#' || rest[0] == ';' {
        NoTokenAtEnd(rest[1 + LineRun(rest[1..])..]);
      } else {
        NoTokenAtEnd(rest[1..]);
      }
    }
  }

  lemma NotGotAtEnd(s: Src)
    requires Ok(s) && !GetToken(s).ok
    ensures AtEnd(GetToken(s).s)
  {
    hide ScanToken;
    NoTokenAtEnd(s.rest);
  }

  // ---------- Blocks ----------

  lemma ClosingPicture(token: bytes)
    requires WordOf(token) == EndPicture
    ensures ToUpper(Trim(token)) == "ENDPICTURE"
  {
    hide Trim, ToUpper;
    FoundIsSpelled(Up(token));
  }

  lemma ClosingSpot(token: bytes)
    requires ClosesSpot(WordOf(token))
    ensures ToUpper(Trim(token)) in {"ENDDOOR", "ENDBOLT", "ENDSPOT", "ENDHOTSPOT"}
  {
    hide Trim, ToUpper;
    FoundIsSpelled(Up(token));
  }

  /** A picture is closed by ENDPICTURE alone, in any case; otherwise the text has come to its end. */
  lemma {:induction false} PictureClosed(s: Src, v: PictureVars)
    requires Ok(s)
    ensures var r := PictureLoop(s, v);
            if r.closed then ToUpper(Trim(r.s.token)) == "ENDPICTURE" else AtEnd(r.s)
    decreases Fuel(s)
  {
    hide GetToken, WordOf, PictureStep, AtEnd, Trim, ToUpper;
    var g := GetToken(s);
    if !g.ok {
      NotGotAtEnd(s);
    } else if WordOf(g.s.token) == EndPicture {
      ClosingPicture(g.s.token);
    } else {
      var r := PictureStep(WordOf(g.s.token), g.s, v);
      PictureClosed(r.s, r.v);
    }
  }

  /** A hotspot is closed by one of four words alone; otherwise the text has come to its end. */
  lemma {:induction false} SpotClosed(s: Src, v: SpotVars)
    requires Ok(s)
    ensures var r := SpotLoop(s, v);
            if r.closed then ToUpper(Trim(r.s.token)) in {"ENDDOOR", "ENDBOLT", "ENDSPOT", "ENDHOTSPOT"} else AtEnd(r.s)
    decreases Fuel(s)
  {
    hide GetToken, WordOf, SpotStep, AtEnd, ClosesSpot, Trim, ToUpper;
    var g := GetToken(s);
    if !g.ok {
      NotGotAtEnd(s);
    } else if ClosesSpot(WordOf(g.s.token)) {
      ClosingSpot(g.s.token);
    } else {
      var r := SpotStep(WordOf(g.s.token), g.s, v);
      SpotClosed(r.s, r.v);
    }
  }

  // ---------- Points ----------

  /** A coordinate that is the last token of the text is the whole point, and is not read again. */
  lemma LastCoordinate(s: Src)
    requires Ok(s) && GetToken(s).ok && StartsNumber(GetToken(s).s.token) && ScanToken(GetToken(s).s.rest).NoToken?
    ensures ReadPoint(s).v == 0 && AtEnd(ReadPoint(s).s)
  {
    hide ScanToken;
    NoTokenAtEnd(GetToken(s).s.rest);
  }
}
