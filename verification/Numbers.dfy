/** Decimal and hexadecimal integers as Go's strconv reads them and fmt prints them,
    with the widths the repository converts to. */
module Numbers {
  import opened Bytes

  type int16 = x: int | -0x8000 <= x <= 0x7FFF
  type int32 = x: int | -0x8000_0000 <= x <= 0x7FFF_FFFF
  type uint32 = x: int | 0 <= x <= 0xFFFF_FFFF
  type int64 = x: int | -0x8000_0000_0000_0000 <= x <= 0x7FFF_FFFF_FFFF_FFFF

  const MAX_UINT64: nat := 0xFFFF_FFFF_FFFF_FFFF
  const MAX_INT64: int := 0x7FFF_FFFF_FFFF_FFFF
  const MIN_INT64: int := -0x8000_0000_0000_0000

  // Go's integer conversions keep the low bits.

  function ToInt16(v: int): int16 {
    (v + 0x8000) % 0x1_0000 - 0x8000
  }

  function ToInt32(v: int): int32 {
    (v + 0x8000_0000) % 0x1_0000_0000 - 0x8000_0000
  }

  function ToUint32(v: int): uint32 {
    v % 0x1_0000_0000
  }

  lemma Int16Kept(v: int16)
    ensures ToInt16(v) == v
  {
  }

  lemma Int32Kept(v: int32)
    ensures ToInt32(v) == v
  {
  }

  lemma Uint32Kept(v: uint32)
    ensures ToUint32(v) == v
  {
  }

  // ---------- Reading ----------

  /** strconv.ParseUint's three outcomes. */
  datatype Parsed = Value(v: nat) | OutOfRange | Malformed

  function DigitValue(c: byte): (d: int)
    ensures -1 <= d < 36
  {
    if '0' <= c <= '9' then c as int - '0' as int
    else if 'a' <= c <= 'z' then c as int - 'a' as int + 10
    else if 'A' <= c <= 'Z' then c as int - 'A' as int + 10
    else -1
  }

  /** The scan of strconv.ParseUint. It stops at the first bad digit or at the first overflow,
      so digits after an overflow are not looked at. */
  function ScanDigits(s: bytes, base: nat, max: nat, n: nat): Parsed {
    if s == [] then Value(n)
    else
      var d := DigitValue(s[0]);
      if d < 0 || d >= base then Malformed
      else if n * base + d > max then OutOfRange
      else ScanDigits(s[1..], base, max, n * base + d)
  }

  function ParseUint(s: bytes, base: nat, max: nat): Parsed {
    if s == [] then Malformed else ScanDigits(s, base, max, 0)
  }

  /** The value ParseUint returns when its error is ignored. */
  function UintOrClamp(s: bytes, base: nat, max: nat): nat {
    match ParseUint(s, base, max)
    case Value(v) => v
    case OutOfRange => max
    case Malformed => 0
  }

  datatype AtoiResult = AtoiResult(v: int64, ok: bool)

  /** strconv.Atoi on a 64-bit platform. */
  function Atoi(s: bytes): AtoiResult {
    if s == [] then AtoiResult(0, false)
    else
      var neg := s[0] == '-';
      var digits := if s[0] == '-' || s[0] == '+' then s[1..] else s;
      match ParseUint(digits, 10, MAX_UINT64)
      case Malformed => AtoiResult(0, false)
      case OutOfRange => AtoiResult(if neg then MIN_INT64 else MAX_INT64, false)
      case Value(v) =>
        if !neg && v > MAX_INT64 then AtoiResult(MAX_INT64, false)
        else if neg && 0 - v < MIN_INT64 then AtoiResult(MIN_INT64, false)
        else AtoiResult(if neg then 0 - v else v, true)
  }

  // ---------- Printing ----------

  function DigitChar(d: nat): byte
    requires d < 16
  {
    if d < 10 then ('0' as int + d) as char else ('A' as int + d - 10) as char
  }

  predicate IsBase(base: nat) {
    base == 10 || base == 16
  }

  function Digits(n: nat, base: nat): (r: bytes)
    requires IsBase(base)
    ensures r != []
    ensures forall i :: 0 <= i < |r| ==> '0' <= r[i] <= '9' || 'A' <= r[i] <= 'F'
    ensures base == 10 ==> forall i :: 0 <= i < |r| ==> '0' <= r[i] <= '9'
  {
    if n < base then [DigitChar(n)] else Digits(n / base, base) + [DigitChar(n % base)]
  }

  /** fmt's %d. */
  function Dec(n: int): (r: bytes)
    ensures r != []
  {
    if n < 0 then "-" + Digits(0 - n, 10) else Digits(n, 10)
  }

  // ---------- Round trips ----------

  lemma DigitRoundTrip(d: nat)
    requires d < 16
    ensures DigitValue(DigitChar(d)) == d
  {
  }

  lemma {:induction false} ScanAppend(a: bytes, c: byte, base: nat, max: nat, n: nat)
    ensures ScanDigits(a + [c], base, max, n) ==
            match ScanDigits(a, base, max, n)
            case Value(v) => ScanDigits([c], base, max, v)
            case bad => bad
  {
    if a == [] {
      assert a + [c] == [c];
    } else {
      assert (a + [c])[1..] == a[1..] + [c];
      var d := DigitValue(a[0]);
      if 0 <= d < base && n * base + d <= max {
        ScanAppend(a[1..], c, base, max, n * base + d);
      }
    }
  }

  lemma {:induction false} DigitsRoundTrip(n: nat, base: nat, max: nat)
    requires IsBase(base) && n <= max
    ensures ScanDigits(Digits(n, base), base, max, 0) == Value(n)
  {
    if n < base {
      DigitRoundTrip(n);
    } else {
      DigitsRoundTrip(n / base, base, max);
      DigitRoundTrip(n % base);
      ScanAppend(Digits(n / base, base), DigitChar(n % base), base, max, 0);
      var v := n / base;
      assert v * base + n % base == n;
      assert [DigitChar(n % base)][1..] == [];
    }
  }

  /** Every 64-bit integer survives printing in decimal and reading back. */
  lemma DecRoundTrip(n: int64)
    ensures Atoi(Dec(n)) == AtoiResult(n, true)
  {
    if n < 0 {
      var m: nat := 0 - n;
      assert Dec(n)[1..] == Digits(m, 10);
      DigitsRoundTrip(m, 10, MAX_UINT64);
    } else {
      DigitsRoundTrip(n, 10, MAX_UINT64);
    }
  }
}
