/** The browser-side writer of a one-file tar archive (web/public/js/server-files.js), and what the ustar
    Interchange Format of the pax utility (IEEE Std 1003.1) lets a reader find in it. */
module TarWriter {
  import opened Wrappers

  type octet = x: int | 0 <= x < 256

  const SPACE: octet := 0x20
  const BLOCK := 512

  // ---------- Octal numbers ----------

  function Octal(n: nat): (r: seq<octet>)
    ensures r != [] && forall i :: 0 <= i < |r| ==> 48 <= r[i] <= 55
  {
    if n < 8 then [48 + n] else Octal(n / 8) + [48 + n % 8]
  }

  /** The number a field's leading octal digits spell. */
  function OctalValue(field: seq<octet>, n: nat): nat {
    if field == [] || !(48 <= field[0] <= 55) then n else OctalValue(field[1..], n * 8 + field[0] - 48)
  }

  function Zeros(n: nat): (r: seq<octet>)
    ensures |r| == n && forall i :: 0 <= i < n ==> r[i] == 0
  {
    seq(n, i => 0)
  }

  /** A number in octal with a zero byte, cut to the field's length or filled up with zero bytes. */
  function OctalField(fieldLen: nat, value: nat): (r: seq<octet>)
    ensures |r| == fieldLen
  {
    var enc := Octal(value) + [0];
    if |enc| >= fieldLen then enc[..fieldLen] else enc + Zeros(fieldLen - |enc|)
  }

  function PadStart(s: seq<octet>, n: nat): (r: seq<octet>)
    ensures |r| == if |s| < n then n else |s|
  {
    if |s| < n then seq(n - |s|, i => 48) + s else s
  }

  function Pow8(k: nat): nat {
    if k == 0 then 1 else 8 * Pow8(k - 1)
  }

  lemma {:induction false} OctalLength(n: nat, k: nat)
    requires k > 0 && n < Pow8(k)
    ensures |Octal(n)| <= k
  {
    if n >= 8 {
      OctalLength(n / 8, k - 1);
    }
  }

  lemma {:induction false} OctalAppend(a: seq<octet>, b: seq<octet>, n: nat)
    requires forall i :: 0 <= i < |a| ==> 48 <= a[i] <= 55
    ensures OctalValue(a + b, n) == OctalValue(b, OctalValue(a, n))
  {
    if a == [] {
      assert a + b == b;
    } else {
      assert (a + b)[1..] == a[1..] + b;
      OctalAppend(a[1..], b, n * 8 + a[0] - 48);
    }
  }

  lemma {:induction false} OctalRead(n: nat)
    ensures OctalValue(Octal(n), 0) == n
  {
    if n >= 8 {
      OctalRead(n / 8);
      OctalAppend(Octal(n / 8), [48 + n % 8], 0);
      assert OctalValue([48 + n % 8], n / 8) == n / 8 * 8 + n % 8 by {
        assert [48 + n % 8][1..] == [];
      }
    } else {
      assert [48 + n][1..] == [];
    }
  }

  /** Digits followed by a byte that is no digit read as the number. */
  lemma OctalThen(n: nat, stop: octet, rest: seq<octet>)
    requires !(48 <= stop <= 55)
    ensures OctalValue(Octal(n) + ([stop] + rest), 0) == n
  {
    hide Octal;
    OctalAppend(Octal(n), [stop] + rest, 0);
    OctalRead(n);
  }

  lemma {:induction false} LeadingZeros(k: nat, s: seq<octet>)
    ensures OctalValue(seq(k, i => 48) + s, 0) == OctalValue(s, 0)
  {
    var z: seq<octet> := seq(k, i => 48);
    if k == 0 {
      assert z + s == s;
    } else {
      var y: seq<octet> := seq(k - 1, i => 48);
      assert (z + s)[1..] == y + s;
      LeadingZeros(k - 1, s);
    }
  }

  lemma OctalFieldRead(fieldLen: nat, value: nat)
    requires fieldLen > 1 && value < Pow8(fieldLen - 1)
    ensures OctalValue(OctalField(fieldLen, value), 0) == value
  {
    hide Octal, OctalValue, Pow8;
    OctalLength(value, fieldLen - 1);
    var pad := fieldLen - |Octal(value)| - 1;
    OctalThen(value, 0, Zeros(pad));
    assert OctalField(fieldLen, value) == Octal(value) + ([0] + Zeros(pad));
  }

  // ---------- Writing into a byte array ----------

  function Put(h: seq<octet>, at: nat, s: seq<octet>): (r: seq<octet>)
    requires at + |s| <= |h|
    ensures |r| == |h|
  {
    h[..at] + s + h[at + |s|..]
  }

  lemma PutHere(h: seq<octet>, at: nat, s: seq<octet>)
    requires at + |s| <= |h|
    ensures Put(h, at, s)[at..at + |s|] == s
  {
  }

  lemma PutElsewhere(h: seq<octet>, at: nat, s: seq<octet>, a: nat, b: nat)
    requires at + |s| <= |h| && a <= b <= |h| && (b <= at || at + |s| <= a)
    ensures Put(h, at, s)[a..b] == h[a..b]
  {
  }

  /** Uint8Array.set. */
  method SetBytes(h: array<octet>, at: nat, s: seq<octet>)
    requires at + |s| <= h.Length
    modifies h
    ensures h[..] == Put(old(h[..]), at, s)
  {
    for i := 0 to |s|
      invariant forall k :: 0 <= k < h.Length ==> h[k] == if at <= k < at + i then s[k - at] else old(h[k])
    {
      h[at + i] := s[i];
    }
    assert h[..] == Put(old(h[..]), at, s);
  }

  method WriteTarOctalField(header: array<octet>, offset: nat, fieldLen: nat, value: nat)
    requires offset + fieldLen <= header.Length
    modifies header
    ensures header[..] == Put(old(header[..]), offset, OctalField(fieldLen, value))
  {
    hide Octal;
    var enc := Octal(value) + [0];
    for i := offset to offset + fieldLen
      invariant forall k :: 0 <= k < header.Length ==> header[k] == if offset <= k < i then 0 else old(header[k])
    {
      header[i] := 0;
    }
    var n := if fieldLen < |enc| then fieldLen else |enc|;
    for i := 0 to n
      invariant forall k :: 0 <= k < header.Length ==>
                  header[k] == if offset <= k < offset + i then enc[k - offset]
                               else if offset <= k < offset + fieldLen then 0
                               else old(header[k])
    {
      header[offset + i] := enc[i];
    }
    assert header[..] == Put(old(header[..]), offset, OctalField(fieldLen, value));
  }

  // ---------- The checksum ----------

  function Sum(s: seq<octet>): (n: nat)
    ensures n <= 255 * |s|
  {
    if s == [] then 0 else Sum(s[..|s| - 1]) + s[|s| - 1]
  }

  function Spaces(n: nat): seq<octet> {
    seq(n, i => SPACE)
  }

  /** Six octal digits, a zero byte and a space. */
  function ChecksumField(sum: nat): seq<octet> {
    PadStart(Octal(sum), 6) + [0, SPACE]
  }

  /** 512 bytes sum up to less than six octal digits can say. */
  lemma ChecksumFits(h: seq<octet>)
    requires |h| == BLOCK
    ensures |ChecksumField(Sum(h))| == 8
    ensures OctalValue(ChecksumField(Sum(h))[..6], 0) == Sum(h) && ChecksumField(Sum(h))[6..] == [0, 32]
  {
    hide Octal, OctalValue, Sum;
    var n := Sum(h);
    assert n <= 255 * 512 < Pow8(6) by {
      assert Pow8(6) == 262144;
    }
    OctalLength(n, 6);
    OctalRead(n);
    LeadingZeros(6 - |Octal(n)|, Octal(n));
    assert ChecksumField(n)[..6] == PadStart(Octal(n), 6);
    if |Octal(n)| == 6 {
      assert seq<octet>(0, i => 48) + Octal(n) == Octal(n);
    }
  }

  // ---------- The archive ----------

  function PadTar512(len: nat): (r: nat)
    ensures r % BLOCK == 0 && len <= r < len + BLOCK
  {
    var r := len % BLOCK;
    if r == 0 then len else len + (BLOCK - r)
  }

  const USTAR: seq<octet> := [117, 115, 116, 97, 114]

  /** The first four fields. */
  function Named(name: seq<octet>): (h: seq<octet>)
    requires |name| <= 100
    ensures |h| == BLOCK
  {
    var h := Put(Zeros(BLOCK), 0, name);
    var h := Put(h, 100, OctalField(8, 0x1A4));
    var h := Put(h, 108, OctalField(8, 0));
    Put(h, 116, OctalField(8, 0))
  }

  /** The type flag, the magic and the version, and the checksum field as spaces. */
  function Flagged(h: seq<octet>): (r: seq<octet>)
    requires |h| == BLOCK
    ensures |r| == BLOCK
  {
    var h := Put(h, 156, [48]);
    var h := Put(h, 257, USTAR);
    var h := Put(h, 263, [48, 48]);
    Put(h, 148, Spaces(8))
  }

  function Finished(h: seq<octet>, size: nat, mtime: nat): (r: seq<octet>)
    requires |h| == BLOCK
    ensures |r| == BLOCK
  {
    Flagged(Put(Put(h, 124, OctalField(12, size)), 136, OctalField(12, mtime)))
  }

  /** The header before its checksum: every field in place, the checksum field all spaces. */
  function Unsigned(name: seq<octet>, size: nat, mtime: nat): (h: seq<octet>)
    requires |name| <= 100
    ensures |h| == BLOCK
  {
    Finished(Named(name), size, mtime)
  }

  function Header(name: seq<octet>, size: nat, mtime: nat): (h: seq<octet>)
    requires |name| <= 100
    ensures |h| == BLOCK
  {
    var h := Unsigned(name, size, mtime);
    ChecksumFits(h);
    Put(h, 148, ChecksumField(Sum(h)))
  }

  function Archive(name: seq<octet>, data: seq<octet>, mtime: nat): seq<octet>
    requires |name| <= 100
  {
    Header(name, |data|, mtime) + data + Zeros(PadTar512(|data|) - |data| + 1024)
  }

  method WriteHeader(header: array<octet>, name: seq<octet>, size: nat, mtime: nat)
    requires |name| <= 100 && header.Length == BLOCK && header[..] == Zeros(BLOCK)
    modifies header
    ensures header[..] == Unsigned(name, size, mtime)
  {
    hide Put, OctalField, Zeros;
    SetBytes(header, 0, name);
    WriteTarOctalField(header, 100, 8, 0x1A4);
    WriteTarOctalField(header, 108, 8, 0);
    WriteTarOctalField(header, 116, 8, 0);
    WriteTarOctalField(header, 124, 12, size);
    WriteTarOctalField(header, 136, 12, mtime);
    SetBytes(header, 156, [48]);
    SetBytes(header, 257, USTAR);
    SetBytes(header, 263, [48, 48]);
    SetBytes(header, 148, Spaces(8));
  }

  method SumBytes(header: array<octet>) returns (sum: nat)
    ensures sum == Sum(header[..])
  {
    sum := 0;
    for i := 0 to header.Length
      invariant sum == Sum(header[..i])
    {
      assert header[..i + 1][..i] == header[..i];
      sum := sum + header[i];
    }
    assert header[..header.Length] == header[..];
  }

  /** The modification time is a parameter; a name over 100 characters is refused. */
  method CreateTarArchiveSingle(fileName: seq<octet>, data: seq<octet>, mtime: nat) returns (r: Option<array<octet>>)
    ensures r.None? <==> |fileName| > 100
    ensures r.Some? ==> fresh(r.value) && r.value[..] == Archive(fileName, data, mtime)
  {
    hide Put, Sum, ChecksumField, Unsigned;
    if |fileName| > 100 {
      return None;
    }
    var header := new octet[BLOCK](i => 0);
    assert header[..] == Zeros(BLOCK);
    WriteHeader(header, fileName, |data|, mtime);
    var sum := SumBytes(header);
    ChecksumFits(header[..]);
    SetBytes(header, 148, ChecksumField(sum));
    assert header[..] == Header(fileName, |data|, mtime);
    var out := new octet[BLOCK + PadTar512(|data|) + 1024](i => 0);
    ghost var blank := out[..];
    SetBytes(out, 0, header[..]);
    SetBytes(out, BLOCK, data);
    OutBytes(blank, header[..], data);
    return Some(out);
  }

  lemma OutBytes(blank: seq<octet>, header: seq<octet>, data: seq<octet>)
    requires |header| == BLOCK && |blank| == BLOCK + PadTar512(|data|) + 1024
    requires forall i :: 0 <= i < |blank| ==> blank[i] == 0
    ensures Put(Put(blank, 0, header), BLOCK, data) == header + data + Zeros(PadTar512(|data|) - |data| + 1024)
  {
  }

  // ---------- What a reader finds ----------

  /** The header fields a reader looks at, taken from the checksummed header. */
  lemma HeaderField(name: seq<octet>, size: nat, mtime: nat, a: nat, b: nat)
    requires |name| <= 100 && a <= b <= BLOCK && (b <= 148 || 156 <= a)
    ensures Header(name, size, mtime)[a..b] == Unsigned(name, size, mtime)[a..b]
  {
    hide Put, Unsigned, Sum, ChecksumField;
    var h := Unsigned(name, size, mtime);
    ChecksumFits(h);
    PutElsewhere(h, 148, ChecksumField(Sum(h)), a, b);
  }

  lemma Kept(h: seq<octet>, at: nat, s: seq<octet>, a: nat, b: nat, v: seq<octet>)
    requires at + |s| <= |h| && a <= b <= |h| && (b <= at || at + |s| <= a) && h[a..b] == v
    ensures Put(h, at, s)[a..b] == v
  {
    PutElsewhere(h, at, s, a, b);
  }

  /** Later fields leave the earlier part of a header alone. */
  lemma EarlierKept(name: seq<octet>, size: nat, mtime: nat, h: seq<octet>, a: nat, b: nat, v: seq<octet>)
    requires |h| == BLOCK && a <= b <= 124 && h[a..b] == v
    ensures Finished(h, size, mtime)[a..b] == v
  {
    hide Put, OctalField, USTAR;
    var h5 := Put(h, 124, OctalField(12, size));
    Kept(h, 124, OctalField(12, size), a, b, v);
    var h6 := Put(h5, 136, OctalField(12, mtime));
    Kept(h5, 136, OctalField(12, mtime), a, b, v);
    FlagsKept(h6, a, b, v);
  }

  lemma FlagsKept(h: seq<octet>, a: nat, b: nat, v: seq<octet>)
    requires |h| == BLOCK && a <= b <= 148 && h[a..b] == v
    ensures Flagged(h)[a..b] == v
  {
    hide Put, USTAR;
    var h7 := Put(h, 156, [48]);
    Kept(h, 156, [48], a, b, v);
    UstarLength();
    var h8 := Put(h7, 257, USTAR);
    Kept(h7, 257, USTAR, a, b, v);
    var h9 := Put(h8, 263, [48, 48]);
    Kept(h8, 263, [48, 48], a, b, v);
    Kept(h9, 148, Spaces(8), a, b, v);
  }

  lemma UstarLength()
    ensures |USTAR| == 5 && USTAR == [117, 115, 116, 97, 114]
  {
  }

  /** A reader finds the name, its zero fill, the mode, the size and the modification time. */
  lemma FieldsFound(name: seq<octet>, size: nat, mtime: nat)
    requires |name| <= 100
    ensures var h := Unsigned(name, size, mtime);
            && h[..|name|] == name && h[|name|..100] == Zeros(100 - |name|)
            && h[100..108] == OctalField(8, 0x1A4)
            && h[124..136] == OctalField(12, size) && h[136..148] == OctalField(12, mtime)
  {
    hide Put, OctalField, USTAR, Finished, Flagged, Named;
    var h4 := Named(name);
    NamedFields(name);
    EarlierKept(name, size, mtime, h4, 0, |name|, name);
    EarlierKept(name, size, mtime, h4, |name|, 100, Zeros(100 - |name|));
    EarlierKept(name, size, mtime, h4, 100, 108, OctalField(8, 0x1A4));
    NumbersFound(h4, size, mtime);
    var h := Finished(h4, size, mtime);
    assert h[0..|name|] == h[..|name|];
  }

  lemma NumbersFound(h: seq<octet>, size: nat, mtime: nat)
    requires |h| == BLOCK
    ensures Finished(h, size, mtime)[124..136] == OctalField(12, size)
    ensures Finished(h, size, mtime)[136..148] == OctalField(12, mtime)
  {
    hide Put, OctalField, Flagged;
    var h5 := Put(h, 124, OctalField(12, size));
    PutHere(h, 124, OctalField(12, size));
    var h6 := Put(h5, 136, OctalField(12, mtime));
    Kept(h5, 136, OctalField(12, mtime), 124, 136, OctalField(12, size));
    PutHere(h5, 136, OctalField(12, mtime));
    FlagsKept(h6, 124, 136, OctalField(12, size));
    FlagsKept(h6, 136, 148, OctalField(12, mtime));
  }

  lemma NamedFields(name: seq<octet>)
    requires |name| <= 100
    ensures var h := Named(name);
            && h[0..|name|] == name && h[|name|..100] == Zeros(100 - |name|) && h[100..108] == OctalField(8, 0x1A4)
            && h[124..BLOCK] == Zeros(BLOCK - 124)
  {
    hide Put, OctalField;
    var z := Zeros(BLOCK);
    var n := |name|;
    assert z[n..100] == Zeros(100 - n) && z[124..BLOCK] == Zeros(BLOCK - 124);
    var h1 := Put(z, 0, name);
    PutHere(z, 0, name);
    Kept(z, 0, name, n, 100, Zeros(100 - n));
    Kept(z, 0, name, 124, BLOCK, Zeros(BLOCK - 124));
    var h2 := Put(h1, 100, OctalField(8, 0x1A4));
    PutHere(h1, 100, OctalField(8, 0x1A4));
    AfterField(h1, 100, OctalField(8, 0x1A4), name);
    var h3 := Put(h2, 108, OctalField(8, 0));
    AfterField(h2, 108, OctalField(8, 0), name);
    Kept(h2, 108, OctalField(8, 0), 100, 108, OctalField(8, 0x1A4));
    AfterField(h3, 116, OctalField(8, 0), name);
    Kept(h3, 116, OctalField(8, 0), 100, 108, OctalField(8, 0x1A4));
  }

  /** A field between the name and the size leaves the name and the rest of the block alone. */
  lemma AfterField(h: seq<octet>, at: nat, s: seq<octet>, name: seq<octet>)
    requires |h| == BLOCK && |name| <= 100 <= at && at + |s| <= 124
    requires h[0..|name|] == name && h[|name|..100] == Zeros(100 - |name|) && h[124..BLOCK] == Zeros(BLOCK - 124)
    ensures var r := Put(h, at, s);
            r[0..|name|] == name && r[|name|..100] == Zeros(100 - |name|) && r[124..BLOCK] == Zeros(BLOCK - 124)
  {
    hide Put;
    Kept(h, at, s, 0, |name|, name);
    Kept(h, at, s, |name|, 100, Zeros(100 - |name|));
    Kept(h, at, s, 124, BLOCK, Zeros(BLOCK - 124));
  }

  /** The type flag, the magic with its zero byte, the version, and the spaces the checksum is taken over. */
  lemma MagicFound(name: seq<octet>, size: nat, mtime: nat)
    requires |name| <= 100
    ensures var h := Unsigned(name, size, mtime);
            h[148..156] == Spaces(8) && h[156] == 48 && h[257..262] == USTAR && h[262] == 0 && h[263..265] == [48, 48]
  {
    hide Put, OctalField, Named, Flagged, USTAR;
    NamedFields(name);
    var h4 := Named(name);
    var h5 := Put(h4, 124, OctalField(12, size));
    var h6 := Put(h5, 136, OctalField(12, mtime));
    assert h4[262..263] == [0] by {
      assert h4[262] == h4[124..BLOCK][262 - 124];
    }
    Kept(h4, 124, OctalField(12, size), 262, 263, [0]);
    Kept(h5, 136, OctalField(12, mtime), 262, 263, [0]);
    FlagsFound(h6);
  }

  lemma FlagsFound(h: seq<octet>)
    requires |h| == BLOCK && h[262..263] == [0]
    ensures var r := Flagged(h);
            r[148..156] == Spaces(8) && r[156] == 48 && r[257..262] == USTAR && r[262] == 0 && r[263..265] == [48, 48]
  {
    hide Put, USTAR;
    UstarLength();
    var h7 := Put(h, 156, [48]);
    PutHere(h, 156, [48]);
    Kept(h, 156, [48], 262, 263, [0]);
    var h8 := Put(h7, 257, USTAR);
    PutHere(h7, 257, USTAR);
    Kept(h7, 257, USTAR, 156, 157, [48]);
    Kept(h7, 257, USTAR, 262, 263, [0]);
    var h9 := Put(h8, 263, [48, 48]);
    PutHere(h8, 263, [48, 48]);
    Kept(h8, 263, [48, 48], 156, 157, [48]);
    Kept(h8, 263, [48, 48], 257, 262, USTAR);
    Kept(h8, 263, [48, 48], 262, 263, [0]);
    var r := Put(h9, 148, Spaces(8));
    PutHere(h9, 148, Spaces(8));
    Kept(h9, 148, Spaces(8), 156, 157, [48]);
    Kept(h9, 148, Spaces(8), 257, 262, USTAR);
    Kept(h9, 148, Spaces(8), 262, 263, [0]);
    Kept(h9, 148, Spaces(8), 263, 265, [48, 48]);
    assert r[156..157][0] == r[156] && r[262..263][0] == r[262];
  }

  /** A created archive is one well-formed ustar entry: whole blocks; a size field that reads back as the
      length of the data; the data at 512, followed by zero bytes that hold at least two blocks; and a
      checksum field that reads back as the sum of the header with that field as spaces. */
  lemma ArchiveWellFormed(name: seq<octet>, data: seq<octet>, mtime: nat)
    requires |name| <= 100 && |data| < Pow8(11) && mtime < Pow8(11)
    ensures var a := Archive(name, data, mtime);
            && |a| % BLOCK == 0 && |a| >= BLOCK + |data| + 2 * BLOCK
            && a[..|name|] == name && a[|name|..100] == Zeros(100 - |name|)
            && OctalValue(a[124..136], 0) == |data| && OctalValue(a[136..148], 0) == mtime
            && a[257..262] == [117, 115, 116, 97, 114] && a[262] == 0 && a[263..265] == [48, 48] && a[156] == 48
            && a[BLOCK..BLOCK + |data|] == data
            && (forall i :: BLOCK + |data| <= i < |a| ==> a[i] == 0)
            && OctalValue(a[148..154], 0) == Sum(Put(a[..BLOCK], 148, Spaces(8))) && a[154..156] == [0, 32]
            && OctalValue(a[100..108], 0) == 420
  {
    hide OctalField, OctalValue, Pow8, Sum, Unsigned, Header, Put, USTAR;
    var h, a := Header(name, |data|, mtime), Archive(name, data, mtime);
    assert a[..BLOCK] == h && forall i, j :: 0 <= i <= j <= BLOCK ==> a[i..j] == h[i..j];
    HeaderFound(name, |data|, mtime);
    OctalFieldRead(12, |data|);
    OctalFieldRead(12, mtime);
    PowerOfSeven();
    UstarLength();
    OctalFieldRead(8, 0x1A4);
    assert forall i :: 0 <= i < BLOCK ==> a[i] == h[i];
  }

  lemma PowerOfSeven()
    ensures Pow8(7) == 2097152
  {
  }

  lemma HeaderFound(name: seq<octet>, size: nat, mtime: nat)
    requires |name| <= 100
    ensures var h := Header(name, size, mtime);
            && h[..|name|] == name && h[|name|..100] == Zeros(100 - |name|)
            && h[124..136] == OctalField(12, size) && h[136..148] == OctalField(12, mtime)
            && h[257..262] == USTAR && h[262] == 0 && h[263..265] == [48, 48] && h[156] == 48
            && OctalValue(h[148..154], 0) == Sum(Put(h, 148, Spaces(8))) && h[154..156] == [0, 32]
            && h[100..108] == OctalField(8, 0x1A4)
  {
    hide OctalField, OctalValue, Sum, Unsigned, Put, ChecksumField, USTAR;
    var u, h := Unsigned(name, size, mtime), Header(name, size, mtime);
    FieldsFound(name, size, mtime);
    MagicFound(name, size, mtime);
    ChecksumFits(u);
    var field := ChecksumField(Sum(u));
    assert h[0..|name|] == h[..|name|] && u[0..|name|] == u[..|name|];
    HeaderField(name, size, mtime, 0, |name|);
    HeaderField(name, size, mtime, |name|, 100);
    HeaderField(name, size, mtime, 100, 108);
    HeaderField(name, size, mtime, 124, 136);
    HeaderField(name, size, mtime, 136, 148);
    HeaderField(name, size, mtime, 257, 262);
    HeaderField(name, size, mtime, 263, 265);
    HeaderByte(name, size, mtime, 156);
    HeaderByte(name, size, mtime, 262);
    PutHere(u, 148, field);
    assert h[148..154] == h[148..156][..6] && h[154..156] == h[148..156][6..];
    SpacesBack(u, field);
  }

  lemma HeaderByte(name: seq<octet>, size: nat, mtime: nat, i: nat)
    requires |name| <= 100 && 156 <= i < BLOCK
    ensures Header(name, size, mtime)[i] == Unsigned(name, size, mtime)[i]
  {
    hide Unsigned, Header, Put;
    HeaderField(name, size, mtime, i, i + 1);
    assert Header(name, size, mtime)[i..i + 1][0] == Unsigned(name, size, mtime)[i..i + 1][0];
  }

  /** Putting the spaces back over the checksum gives the header it was taken over. */
  lemma SpacesBack(u: seq<octet>, field: seq<octet>)
    requires |u| == BLOCK && |field| == 8 && u[148..156] == Spaces(8)
    ensures Put(Put(u, 148, field), 148, Spaces(8)) == u
  {
    assert u == u[..148] + u[148..156] + u[156..];
  }
}
