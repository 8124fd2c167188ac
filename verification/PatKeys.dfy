/** What a media file is found under: its last path element, and its whole path when it has one, in lower case
    (pictureKeys of internal/patparse/refs.go), told by how the name is put together. */
module PatKeys {
  import opened Bytes
  import opened Numbers
  import opened PatScanner
  import opened PatWords
  import opened PatRefs
  import opened PatLayout
  import opened PatMeaning
  import opened PatRoomReading

  // ---------- Names put together ----------

  predicate AllSlashes(t: bytes) {
    forall i :: 0 <= i < |t| ==> t[i] == '/'
  }

  /** Nothing, or a path that ends in a slash. */
  predicate IsDir(d: bytes) {
    d != "" ==> d[|d| - 1] == '/'
  }

  predicate IsLeaf(leaf: bytes) {
    leaf != "" && '/' !in leaf
  }

  lemma {:induction false} SlashesDropped(core: bytes, t: bytes)
    requires AllSlashes(t) && core != "" && core[|core| - 1] != '/'
    ensures DropSlashes(core + t) == core
    decreases |t|
  {
    if t == "" {
      assert core + t == core;
    } else {
      assert (core + t)[..|core + t| - 1] == core + t[..|t| - 1];
      SlashesDropped(core, t[..|t| - 1]);
    }
  }

  lemma {:induction false} OnlySlashesDropped(t: bytes)
    requires AllSlashes(t)
    ensures DropSlashes(t) == ""
    decreases |t|
  {
    if t != "" {
      OnlySlashesDropped(t[..|t| - 1]);
    }
  }

  lemma {:induction false} LeafAfterDir(d: bytes, leaf: bytes)
    requires IsDir(d) && forall i :: 0 <= i < |leaf| ==> leaf[i] != '/'
    ensures AfterLastSlash(d + leaf) == leaf
    decreases |leaf|
  {
    if leaf == "" {
      assert d + leaf == d;
    } else {
      var s, init, last := d + leaf, leaf[..|leaf| - 1], leaf[|leaf| - 1];
      assert s[..|s| - 1] == d + init && s[|s| - 1] == last;
      LeafAfterDir(d, init);
      assert init + [last] == leaf;
    }
  }

  /** The base of a path is its last element, whatever slashes follow it. */
  lemma BaseOfPath(d: bytes, leaf: bytes, t: bytes)
    requires IsDir(d) && IsLeaf(leaf) && AllSlashes(t)
    ensures Base(d + leaf + t) == leaf
  {
    var core := d + leaf;
    assert core[|core| - 1] == leaf[|leaf| - 1] && leaf[|leaf| - 1] in leaf;
    SlashesDropped(core, t);
    LeafAfterDir(d, leaf);
  }

  /** A name with a last element is found under that element and, when it has a slash, under the whole of it. */
  lemma KeysOfPath(a: bytes, d: bytes, leaf: bytes, t: bytes, b: bytes)
    requires AllSpace(a) && AllSpace(b) && IsDir(d) && IsLeaf(leaf) && AllSlashes(t) && Trimmed(d + leaf + t)
    ensures var path := d + leaf + t;
            PictureKeys(a + path + b) == [ToLower(leaf)] + if d == "" && t == "" then [] else [ToLower(path)]
  {
    hide Trim, Base;
    var path := d + leaf + t;
    TrimPadded(a, path, b);
    BaseOfPath(d, leaf, t);
    SlashIn(d, leaf, t);
  }

  lemma SlashIn(d: bytes, leaf: bytes, t: bytes)
    requires IsDir(d) && '/' !in leaf && AllSlashes(t)
    ensures '/' in d + leaf + t <==> d != "" || t != ""
  {
    var path := d + leaf + t;
    if d != "" {
      assert path[|d| - 1] == '/';
    }
    if t != "" {
      assert path[|d + leaf|] == '/';
    }
  }

  /** A plain file name is found under itself; white space around it does not matter. */
  lemma KeysOfPlainName(a: bytes, leaf: bytes, b: bytes)
    requires AllSpace(a) && AllSpace(b) && IsLeaf(leaf) && Trimmed(leaf)
    ensures PictureKeys(a + leaf + b) == [ToLower(leaf)]
  {
    assert "" + leaf + "" == leaf;
    KeysOfPath(a, "", leaf, "", b);
  }

  /** A name below a directory is found under both. */
  lemma KeysBelow(d: bytes, leaf: bytes)
    requires IsLeaf(leaf) && Trimmed(d + "/" + leaf)
    ensures PictureKeys(d + "/" + leaf) == [ToLower(leaf), ToLower(d + "/" + leaf)]
  {
    hide PictureKeys, ToLower, Trimmed;
    var dir, path := d + "/", d + "/" + leaf;
    assert dir + leaf + [] == path && [] + path + [] == path;
    KeysOfPath([], dir, leaf, [], []);
  }

  /** Nothing but slashes is found under one slash and under itself, and a blank name under nothing. */
  lemma KeysOfNoName(a: bytes, t: bytes, b: bytes)
    requires AllSpace(a) && AllSpace(b) && AllSlashes(t)
    ensures PictureKeys(a + t + b) == if t == "" then [] else ["/", t]
  {
    hide Trim, DropSlashes;
    TrimPadded(a, t, b);
    OnlySlashesDropped(t);
    if t != "" {
      assert t[0] in t;
      assert ToLower(t) == t && ToLower("/") == "/";
    }
  }

  // ---------- Every name is put together so ----------

  ghost predicate HasLeaf(name: bytes, leaf: bytes) {
    exists a, d, t, b :: IsSpelled(name, a, d, leaf, t, b)
  }

  predicate IsSpelled(name: bytes, a: bytes, d: bytes, leaf: bytes, t: bytes, b: bytes) {
    && AllSpace(a) && AllSpace(b) && IsDir(d) && IsLeaf(leaf) && AllSlashes(t) && Trimmed(d + leaf + t)
    && name == a + (d + leaf + t) + b
  }

  lemma {:induction false} SlashParts(path: bytes) returns (core: bytes, t: bytes)
    ensures path == core + t && AllSlashes(t) && (core != "" ==> core[|core| - 1] != '/')
    decreases |path|
  {
    if path != "" && path[|path| - 1] == '/' {
      core, t := SlashParts(path[..|path| - 1]);
      t := t + "/";
    } else {
      core, t := path, "";
    }
  }

  lemma {:induction false} DirParts(core: bytes) returns (d: bytes, leaf: bytes)
    ensures core == d + leaf && IsDir(d) && '/' !in leaf
    ensures core != "" && core[|core| - 1] != '/' ==> leaf != ""
    decreases |core|
  {
    if core == "" || core[|core| - 1] == '/' {
      d, leaf := core, "";
    } else {
      d, leaf := DirParts(core[..|core| - 1]);
      leaf := leaf + [core[|core| - 1]];
    }
  }

  /** A name has a last element, or it is blank, or it is nothing but slashes. */
  lemma SomeLeaf(name: bytes)
    ensures (exists leaf :: HasLeaf(name, leaf)) || forall k :: k in PictureKeys(name) ==> '/' in k
  {
    hide PictureKeys;
    var a, b := TrimParts(name);
    var core, t := SlashParts(Trim(name));
    if core == "" {
      assert core + t == t;
      KeysOfNoName(a, t, b);
      assert name == a + t + b;
      assert t != "" ==> t[0] in t;
    } else {
      var d, leaf := DirParts(core);
      assert IsSpelled(name, a, d, leaf, t, b);
      assert HasLeaf(name, leaf);
    }
  }

  /** A text without a slash is a key of a name exactly when it is the name's last element in lower case. */
  lemma LeafIsKey(name: bytes, k: bytes)
    requires '/' !in k
    ensures k in PictureKeys(name) <==> exists leaf :: HasLeaf(name, leaf) && ToLower(leaf) == k
  {
    hide PictureKeys;
    SomeLeaf(name);
    forall leaf | HasLeaf(name, leaf) ensures k in PictureKeys(name) <==> ToLower(leaf) == k {
      var a, d, t, b :| IsSpelled(name, a, d, leaf, t, b);
      KeysOfPath(a, d, leaf, t, b);
      SlashIn(d, leaf, t);
      LowerKeepsSlash(d + leaf + t);
    }
  }

  lemma LowerKeepsSlash(s: bytes)
    ensures '/' in s <==> '/' in ToLower(s)
  {
    if '/' in s {
      var i :| 0 <= i < |s| && s[i] == '/';
      assert ToLower(s)[i] == '/';
    }
    if '/' in ToLower(s) {
      var i :| 0 <= i < |s| && ToLower(s)[i] == '/';
      assert Lower(s[i]) == '/';
    }
  }

  // ---------- Lookups by file name ----------

  /** The name ends in a given file name, in any case. */
  ghost predicate IsFile(name: bytes, leaf: bytes) {
    exists g :: HasLeaf(name, g) && ToLower(g) == ToLower(leaf)
  }

  /** Looking up a file name, in any case, finds the first place of the file that names a file so called, in
      whatever directory. */
  lemma FileNameFound(ps: seq<Placed>, file: seq<TopItem>, after: bytes, leaf: bytes, i: nat)
    requires LayoutOk(ps) && FileOk(file) && |ps| == |FileParts(file)| && Spells(ps, FileParts(file))
    requires after == [] || !IsWordByte(after[0])
    requires IsLeaf(leaf)
    ensures var found, events := FirstRefs(Text(ps) + after), FileEvents(file);
            && (ToLower(leaf) in found <==> exists j :: 0 <= j < |events| && IsFile(events[j].file, leaf))
            && (i < |events| && IsFile(events[i].file, leaf) && (forall j :: 0 <= j < i ==> !IsFile(events[j].file, leaf))
                ==> found[ToLower(leaf)] == events[i].ref)
  {
    hide FirstRefs, Text, FileParts, FileEvents, FirstNaming, PictureKeys, LayoutOk, FileOk, HasLeaf;
    var events, k := FileEvents(file), ToLower(leaf);
    LowerKeepsSlash(leaf);
    FirstRefsFirst(ps, file, after, k);
    forall j | 0 <= j < |events| ensures Names(events[j], k) <==> IsFile(events[j].file, leaf) {
      LeafIsKey(events[j].file, k);
    }
    var first := FirstNaming(events, k);
    FirstNamed(events, k);
  }

  lemma FirstNamed(events: seq<Event>, k: bytes)
    ensures var n := FirstNaming(events, k);
            && n <= |events| && (n < |events| ==> Names(events[n], k)) && forall i :: 0 <= i < n ==> !Names(events[i], k)
  {
  }
}
