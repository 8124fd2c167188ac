/** What a form save announces, told from the request: the announcement lines of the written file and the
    registry entry. */
module PrefsAnnounced {
  import opened Wrappers
  import opened Bytes
  import opened PrefsMerge
  import opened PrefsMergeLaws
  import opened PrefsForm
  import PrefsRenderer
  import PrefsParser

  /** A line that starts with one of the two announcement words, in any case. */
  predicate Announces(line: bytes) {
    HasPrefix(ToUpper(Trim(line)), "YPMYEXTADDR") || HasPrefix(ToUpper(Trim(line)), "YPMYEXTPORT")
  }

  function AnnouncementLines(ls: seq<bytes>): seq<bytes> {
    if ls == [] then []
    else (if Announces(ls[0]) then [ls[0]] else []) + AnnouncementLines(ls[1..])
  }

  lemma {:induction false} AnnouncementAppend(a: seq<bytes>, b: seq<bytes>)
    ensures AnnouncementLines(a + b) == AnnouncementLines(a) + AnnouncementLines(b)
  {
    hide Announces;
    if a == [] {
      assert a + b == b;
    } else {
      assert (a + b)[1..] == a[1..] + b;
      AnnouncementAppend(a[1..], b);
    }
  }

  lemma {:induction false} NoAnnouncements(ls: seq<bytes>)
    requires forall i :: 0 <= i < |ls| ==> !Announces(ls[i])
    ensures AnnouncementLines(ls) == []
  {
    if ls != [] {
      NoAnnouncements(ls[1..]);
    }
  }

  lemma {:induction false} AllAnnouncements(ls: seq<bytes>)
    requires forall i :: 0 <= i < |ls| ==> Announces(ls[i])
    ensures AnnouncementLines(ls) == ls
  {
    if ls != [] {
      AllAnnouncements(ls[1..]);
    }
  }

  lemma AnnouncesIsDropped(line: bytes)
    ensures Announces(line) <==> Dropped(line, YP_ADDR, YP_PORT)
  {
    hide Trim;
    assert Trim(line) == "" ==> ToUpper(Trim(line)) == "";
  }

  /** The announcement lines of an announced text are exactly the ones the pass appends. */
  lemma AnnouncedExactly(content: bytes, host: bytes, port: int)
    ensures AnnouncementLines(Lines(MergedYp(content, host, port))) == YpLines(host, port)
  {
    hide Trim, YpLines, Body, Dropped, Announces, Unlines, Lines;
    var kept, yp := Body(content, YP_ADDR, YP_PORT), YpLines(host, port);
    BodyIsSolid(content, YP_ADDR, YP_PORT);
    BodyIsKept(content, YP_ADDR, YP_PORT);
    YpLinesAreLines(host, port);
    YpLinesDropped(host, port);
    LinesOfUnlines(kept + yp);
    forall line ensures Announces(line) <==> Dropped(line, YP_ADDR, YP_PORT) {
      AnnouncesIsDropped(line);
    }
    EmptyLineStays();
    NoAnnouncements(kept);
    AllAnnouncements(yp);
    NoAnnouncements([""]);
    AnnouncementAppend(kept, yp);
    AnnouncementAppend(kept + yp, [""]);
  }

  lemma EmptyLineStays()
    ensures !Announces("")
  {
    TrimFixed("");
  }

  /** An administrator's save of a registered palace announces what was asked for: the trimmed host, and the port
      asked for or else the palace's own. A blank host withdraws both. */
  lemma SaveAnnouncesRequest(existing: bytes, form: Form, unknownTail: bytes, entry: Entry, host: bytes, port: int)
    ensures var r := SaveResult(existing, form, unknownTail, Some(entry), true, host, port);
            var said := AnnouncementLines(Lines(r.text));
            && (Trim(host) == "" ==> said == [] && r.entry == Some(Entry("", 0, entry.tcpPort)))
            && (Trim(host) != "" && port > 0 ==>
                  said == [AddrText(Trim(host)), PortText(port)]
                  && r.entry == Some(Entry(Trim(host), port, entry.tcpPort)))
            && (Trim(host) != "" && port <= 0 < entry.tcpPort ==>
                  said == [AddrText(Trim(host)), PortText(entry.tcpPort)]
                  && r.entry == Some(Entry(Trim(host), entry.tcpPort, entry.tcpPort)))
            && (Trim(host) != "" && port <= 0 && entry.tcpPort <= 0 ==>
                  said == [AddrText(Trim(host))]
                  && r.entry == Some(Entry(Trim(host), entry.tcpPort, entry.tcpPort)))
  {
    hide Trim, MergedYp, Lines, AnnouncementLines, AddrText, PortText, WithUnknown;
    TrimTwice(host);
    var r := SaveResult(existing, form, unknownTail, Some(entry), true, host, port);
    var content := WithUnknown(PrefsRenderer.Rendered(MergeForm(form, PrefsParser.ParseText(existing).st)), unknownTail);
    AnnouncedExactly(content, r.entry.value.host, r.entry.value.port);
  }

  /** Anybody else's save announces what the registry already says and leaves it alone. */
  lemma SaveAnnouncesRegistry(existing: bytes, form: Form, unknownTail: bytes, entry: Entry, host: bytes, port: int)
    ensures var r := SaveResult(existing, form, unknownTail, Some(entry), false, host, port);
            && r.entry == Some(entry)
            && AnnouncementLines(Lines(r.text)) == (if Trim(entry.host) != "" then [AddrText(Trim(entry.host))] else [])
                                                   + (if entry.port > 0 then [PortText(entry.port)] else [])
  {
    hide Trim, MergedYp, Lines, AnnouncementLines, AddrText, PortText, WithUnknown;
    var content := WithUnknown(PrefsRenderer.Rendered(MergeForm(form, PrefsParser.ParseText(existing).st)), unknownTail);
    AnnouncedExactly(content, entry.host, entry.port);
  }

  /** A palace that is not in the registry is not put there, and its file gets no announcement pass. */
  lemma SaveUnregistered(existing: bytes, form: Form, unknownTail: bytes, isAdmin: bool, host: bytes, port: int)
    ensures var r := SaveResult(existing, form, unknownTail, None, isAdmin, host, port);
            r.entry == None && PrefsRenderer.Rendered(MergeForm(form, PrefsParser.ParseText(existing).st)) <= r.text
  {
    hide PrefsRenderer.Rendered, MergeForm, PrefsParser.ParseText, TrimNewlines;
    var base := PrefsRenderer.Rendered(MergeForm(form, PrefsParser.ParseText(existing).st));
    var tail := TrimNewlines(unknownTail);
  }
}
