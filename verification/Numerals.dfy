/** Reading numbers the way strconv.Atoi does, on 64 bits. */
module Numerals {
  import opened Text

  const MAX_INT := 0x7FFF_FFFF_FFFF_FFFF
  const MAX_UINT := 0xFFFF_FFFF_FFFF_FFFF

  /** Reading digits from the left stops at the first character that is no digit and at the first
      prefix that does not fit in 64 bits, whichever comes first. */
  datatype Scan = NotANumber | TooBig | Magnitude(n: nat)

  function ScanDigits(s: string, n: nat): Scan
    requires n <= |s|
  {
    if n == 0 then Magnitude(0) else Scanned(ScanDigits(s, n - 1), s[n - 1])
  }

  function Scanned(before: Scan, c: char): Scan
  {
    if !before.Magnitude? then before
    else if !IsDigit(c) then NotANumber
    else if before.n * 10 + DigitValue(c) > MAX_UINT then TooBig
    else Magnitude(before.n * 10 + DigitValue(c))
  }

  /** A value and whether it was read without error; after an error the value is what the caller
      that ignores the error goes on with. */
  datatype Number = Number(value: int, ok: bool)

  function Atoi(s: string): Number
  {
    var signed := s != "" && (s[0] == '+' || s[0] == '-');
    var digits := if signed then s[1..] else s;
    var scan := ScanDigits(digits, |digits|);
    if digits == "" || scan.NotANumber? then Number(0, false)
    else if s[0] == '-' then
      if scan.TooBig? || scan.n > MAX_INT + 1 then Number(-MAX_INT - 1, false) else Number(-(scan.n as int), true)
    else
      if scan.TooBig? || scan.n > MAX_INT then Number(MAX_INT, false) else Number(scan.n, true)
  }

  lemma {:induction false} ScanOfDigits(s: string, n: nat)
    requires n <= |s| && AllDigits(s)
    ensures ScanDigits(s, n) == if ValueOf(s, n) <= MAX_UINT then Magnitude(ValueOf(s, n)) else TooBig
  {
    if n > 0 {
      ScanOfDigits(s, n - 1);
    }
  }

  lemma {:induction false} ScannedAreDigits(s: string, n: nat)
    requires n <= |s| && ScanDigits(s, n).Magnitude?
    ensures forall i :: 0 <= i < n ==> IsDigit(s[i])
  {
    if n > 0 {
      ScannedAreDigits(s, n - 1);
    }
  }

  function Clamped(n: nat): int { if n <= MAX_INT then n else MAX_INT }

  lemma {:induction false} AtoiOfDecimal(n: nat)
    ensures Atoi(Decimal(n)) == Number(Clamped(n), n <= MAX_INT)
  {
    var s := Decimal(n);
    DecimalRoundTrip(n);
    assert IsDigit(s[0]);
    ScanOfDigits(s, |s|);
  }
}
