/** What the integer readers accept and give, told by the value of a row of digits; and what Go's integer
    conversions keep. */
module NumberLaws {
  import opened Bytes
  import opened Numbers

  // ---------- Rows of digits ----------

  predicate IsDigitIn(c: byte, base: nat) {
    if base == 10 then c in "0123456789" else c in "0123456789ABCDEFabcdef"
  }

  predicate AreDigits(s: bytes, base: nat) {
    forall i :: 0 <= i < |s| ==> IsDigitIn(s[i], base)
  }

  /** The place of a digit among the digits. */
  function DigitOf(c: byte): nat {
    if '0' <= c <= '9' then c as nat - '0' as nat
    else if c in "aA" then 10
    else if c in "bB" then 11
    else if c in "cC" then 12
    else if c in "dD" then 13
    else if c in "eE" then 14
    else 15
  }

  /** Positional value, the last digit counting once. */
  function Worth(s: bytes, base: nat): nat {
    if s == [] then 0 else Worth(s[..|s| - 1], base) * base + DigitOf(s[|s| - 1])
  }

  lemma DigitIsDigit(c: byte, base: nat)
    requires IsBase(base)
    ensures IsDigitIn(c, base) <==> 0 <= DigitValue(c) < base
    ensures IsDigitIn(c, base) ==> DigitValue(c) == DigitOf(c)
  {
  }

  lemma {:induction false} ValueCons(c: byte, s: bytes, base: nat, n: nat)
    requires AreDigits(s, base) && IsBase(base)
    ensures ValueAfter(n * base + DigitOf(c), s, base) == ValueAfter(n, [c] + s, base)
  {
    if s == [] {
      assert [c] + s == [c] && [c][..0] == [];
      assert ValueAfter(n, [c], base) == ValueAfter(n, [], base) * base + DigitOf(c);
    } else {
      assert ([c] + s)[..|s|] == [c] + s[..|s| - 1];
      ValueCons(c, s[..|s| - 1], base, n);
    }
  }

  /** The value of digits that follow a number read so far. */
  function ValueAfter(n: nat, s: bytes, base: nat): nat {
    if s == [] then n else ValueAfter(n, s[..|s| - 1], base) * base + DigitOf(s[|s| - 1])
  }

  lemma {:induction false} ValueGrows(n: nat, s: bytes, base: nat)
    requires IsBase(base)
    ensures ValueAfter(n, s, base) >= n
  {
    hide DigitOf;
    if s != [] {
      ValueGrows(n, s[..|s| - 1], base);
      var v := ValueAfter(n, s[..|s| - 1], base);
      assert base == 10 || base == 16;
      assert v * base >= v;
    }
  }

  lemma {:induction false} ValueFromNothing(s: bytes, base: nat)
    ensures ValueAfter(0, s, base) == Worth(s, base)
  {
    if s != [] {
      ValueFromNothing(s[..|s| - 1], base);
    }
  }

  /** One digit of a scan. */
  lemma ScanDigit(s: bytes, base: nat, max: nat, n: nat)
    requires IsBase(base) && s != [] && IsDigitIn(s[0], base)
    ensures var m := n * base + DigitOf(s[0]);
            && ScanDigits(s, base, max, n) == (if m > max then OutOfRange else ScanDigits(s[1..], base, max, m))
            && (AreDigits(s[1..], base) ==> ValueAfter(m, s[1..], base) == ValueAfter(n, s, base))
  {
    hide DigitOf, DigitValue, IsDigitIn, ValueAfter;
    DigitIsDigit(s[0], base);
    if AreDigits(s[1..], base) {
      ValueCons(s[0], s[1..], base, n);
      assert [s[0]] + s[1..] == s;
    }
  }

  lemma NoValueAfter(n: nat, base: nat)
    ensures ValueAfter(n, [], base) == n
  {
  }

  /** A scan of digits gives their value, or says that it is out of range. */
  lemma {:induction false} DigitsScanned(s: bytes, base: nat, max: nat, n: nat)
    requires IsBase(base) && AreDigits(s, base) && n <= max
    ensures var v := ValueAfter(n, s, base); ScanDigits(s, base, max, n) == if v <= max then Value(v) else OutOfRange
  {
    hide DigitOf, IsDigitIn, ValueAfter, DigitValue;
    if s == [] {
      NoValueAfter(n, base);
    } else {
      hide ScanDigits;
      ScanDigit(s, base, max, n);
      var m := n * base + DigitOf(s[0]);
      if m <= max {
        DigitsScanned(s[1..], base, max, m);
      } else {
        ValueGrows(m, s[1..], base);
      }
    }
  }

  lemma ScanBad(s: bytes, base: nat, max: nat, n: nat)
    requires IsBase(base) && s != [] && !IsDigitIn(s[0], base)
    ensures ScanDigits(s, base, max, n) == Malformed
  {
    hide DigitValue, IsDigitIn;
    DigitIsDigit(s[0], base);
  }

  /** The scan stops at the first byte that is no digit, unless the digits before it are out of range already. */
  lemma {:induction false} BadDigitScanned(ds: bytes, c: byte, rest: bytes, base: nat, max: nat, n: nat)
    requires IsBase(base) && AreDigits(ds, base) && !IsDigitIn(c, base) && n <= max
    ensures ScanDigits(ds + [c] + rest, base, max, n) == if ValueAfter(n, ds, base) <= max then Malformed else OutOfRange
  {
    hide DigitOf, IsDigitIn, ValueAfter, DigitValue, ScanDigits;
    var s := ds + [c] + rest;
    if ds == [] {
      assert s[0] == c;
      NoValueAfter(n, base);
      ScanBad(s, base, max, n);
    } else {
      assert s[0] == ds[0] && s[1..] == ds[1..] + [c] + rest;
      ScanDigit(s, base, max, n);
      ScanDigit(ds, base, max, n);
      var m := n * base + DigitOf(ds[0]);
      if m <= max {
        BadDigitScanned(ds[1..], c, rest, base, max, m);
      } else {
        ValueGrows(m, ds[1..], base);
      }
    }
  }

  // ---------- Readers ----------

  predicate IsSign(sign: bytes) {
    sign == "" || sign == "+" || sign == "-"
  }

  function Signed(sign: bytes, v: nat): int {
    if sign == "-" then 0 - v else v
  }

  lemma AtoiSplit(sign: bytes, ds: bytes)
    requires IsSign(sign) && ds != "" && (sign == "" ==> ds[0] != '-' && ds[0] != '+')
    ensures Atoi(sign + ds) ==
            match ParseUint(ds, 10, MAX_UINT64)
            case Malformed => AtoiResult(0, false)
            case OutOfRange => AtoiResult(if sign == "-" then MIN_INT64 else MAX_INT64, false)
            case Value(v) =>
              if sign != "-" && v > MAX_INT64 then AtoiResult(MAX_INT64, false)
              else if sign == "-" && 0 - v < MIN_INT64 then AtoiResult(MIN_INT64, false)
              else AtoiResult(Signed(sign, v), true)
  {
    hide ScanDigits;
    var s := sign + ds;
    assert sign == "" ==> s == ds;
    assert sign != "" ==> s[1..] == ds && s[0] == sign[0];
  }

  /** Digits with an optional sign read as their value, or as the nearest 64-bit integer with an error. */
  lemma AtoiReads(sign: bytes, ds: bytes)
    requires IsSign(sign) && ds != "" && AreDigits(ds, 10)
    ensures var v := Signed(sign, Worth(ds, 10));
            Atoi(sign + ds) == if v > MAX_INT64 then AtoiResult(MAX_INT64, false)
                               else if v < MIN_INT64 then AtoiResult(MIN_INT64, false)
                               else AtoiResult(v, true)
  {
    hide ScanDigits, ValueAfter, Worth;
    assert IsDigitIn(ds[0], 10);
    AtoiSplit(sign, ds);
    DigitsScanned(ds, 10, MAX_UINT64, 0);
    ValueFromNothing(ds, 10);
  }

  /** Anything else in the text refuses it: nothing after the sign, or a byte that is no digit. */
  lemma AtoiRefuses(sign: bytes, ds: bytes, c: byte, rest: bytes)
    requires IsSign(sign) && AreDigits(ds, 10) && !IsDigitIn(c, 10)
    requires sign == "" && ds == "" ==> c != '-' && c != '+'
    ensures !Atoi(sign).ok && Atoi(sign).v == 0
    ensures !Atoi(sign + (ds + [c] + rest)).ok
    ensures Worth(ds, 10) <= MAX_UINT64 ==> Atoi(sign + (ds + [c] + rest)).v == 0
  {
    var s := ds + [c] + rest;
    assert s[0] == if ds == "" then c else ds[0];
    assert ds != "" ==> IsDigitIn(ds[0], 10);
    AtoiSplit(sign, s);
    BadDigitScanned(ds, c, rest, 10, MAX_UINT64, 0);
    ValueFromNothing(ds, 10);
  }

  lemma {:induction false} LeadingDigits(s: bytes, base: nat) returns (k: nat)
    ensures k <= |s| && AreDigits(s[..k], base) && (k < |s| ==> !IsDigitIn(s[k], base))
  {
    hide IsDigitIn;
    k := 0;
    if s != [] && IsDigitIn(s[0], base) {
      k := LeadingDigits(s[1..], base);
      assert s[..k + 1] == [s[0]] + s[1..][..k];
      k := k + 1;
    }
  }

  lemma NoDigitsRefused(sign: bytes)
    requires IsSign(sign)
    ensures !Atoi(sign).ok
  {
    AtoiRefuses(sign, "", ' ', "");
  }

  /** An accepted text is digits with an optional sign. */
  lemma AtoiAccepts(s: bytes) returns (sign: bytes, ds: bytes)
    requires Atoi(s).ok
    ensures s == sign + ds && IsSign(sign) && ds != "" && AreDigits(ds, 10)
    ensures Atoi(s).v == Signed(sign, Worth(ds, 10))
  {
    hide IsDigitIn, Worth, Atoi;
    NoDigitsRefused("");
    sign := if s[0] == '-' || s[0] == '+' then s[..1] else "";
    var t := s[|sign|..];
    assert s == sign + t;
    var k := LeadingDigits(t, 10);
    ds := t[..k];
    NoDigitsRefused(sign);
    if k < |t| {
      assert t == ds + [t[k]] + t[k + 1..];
      AtoiRefuses(sign, ds, t[k], t[k + 1..]);
    } else {
      assert t == ds && s == sign + ds;
      assert ds == "" ==> s == sign;
      AtoiReads(sign, ds);
    }
  }

  /** A number in decimal, with or without a sign, inside white space. */
  predicate IsPaddedNumber(text: bytes, left: bytes, sign: bytes, ds: bytes, right: bytes) {
    && text == left + (sign + ds) + right && AllSpace(left) && AllSpace(right)
    && IsSign(sign) && ds != "" && AreDigits(ds, 10)
  }

  lemma DigitIsNoSpace(c: byte)
    ensures IsDigitIn(c, 10) ==> !IsSpace(c)
  {
  }

  lemma PaddedTrimmed(text: bytes, left: bytes, sign: bytes, ds: bytes, right: bytes)
    requires IsPaddedNumber(text, left, sign, ds, right)
    ensures Trim(text) == sign + ds
  {
    hide Trim, IsDigitIn;
    DigitIsNoSpace(ds[0]);
    DigitIsNoSpace(ds[|ds| - 1]);
    var core := sign + ds;
    assert core[|core| - 1] == ds[|ds| - 1];
    assert core[0] == if sign == "" then ds[0] else sign[0];
    TrimPadded(left, core, right);
  }

  /** Hexadecimal digits read as their value, or as the greatest one allowed. */
  lemma HexReads(ds: bytes, max: nat)
    requires ds != "" && AreDigits(ds, 16)
    ensures UintOrClamp(ds, 16, max) == if Worth(ds, 16) <= max then Worth(ds, 16) else max
  {
    hide ScanDigits, ValueAfter, Worth;
    DigitsScanned(ds, 16, max, 0);
    ValueFromNothing(ds, 16);
  }

  // ---------- Conversions ----------

  /** Narrowing keeps the value up to a multiple of the width. */
  lemma NarrowingKeepsLowBits(v: int)
    ensures exists q :: v == ToInt16(v) + q * 0x1_0000
    ensures exists q :: v == ToInt32(v) + q * 0x1_0000_0000
    ensures exists q :: v == ToUint32(v) + q * 0x1_0000_0000
  {
    assert v == ToInt16(v) + (v + 0x8000) / 0x1_0000 * 0x1_0000;
    assert v == ToInt32(v) + (v + 0x8000_0000) / 0x1_0000_0000 * 0x1_0000_0000;
    assert v == ToUint32(v) + v / 0x1_0000_0000 * 0x1_0000_0000;
  }
}
