/** Go's `strconv.ParseInt(s, 10, bitSize)`, the only number parser the
    owner flag goes through, including what it hands back on failure: Go
    returns a value together with the error, and a caller that ignores the
    error still sees that value. */
module Strconv {

  datatype NumError = NoError | ErrSyntax | ErrRange

  /** The `(int64, error)` pair Go returns. */
  datatype Parsed = Parsed(value: int, err: NumError)

  predicate IsDigit(c: char) {
    '0' <= c <= '9'
  }

  function DigitValue(c: char): nat
    requires IsDigit(c)
  {
    (c as int) - ('0' as int)
  }

  predicate AllDigits(s: string) {
    forall i :: 0 <= i < |s| ==> IsDigit(s[i])
  }

  /** The number a string of decimal digits denotes, most significant first. */
  function Decimal(s: string): nat
    requires AllDigits(s)
    decreases |s|
  {
    if |s| == 0 then 0 else Decimal(s[..|s| - 1]) * 10 + DigitValue(s[|s| - 1])
  }

  function Pow2(n: nat): (p: int)
    ensures p >= 1
  {
    if n == 0 then 1 else 2 * Pow2(n - 1)
  }

  // ---------------------------------------------------------------------
  // The accepted syntax: one optional sign, then one or more digits.

  predicate Negative(s: string) {
    |s| > 0 && s[0] == '-'
  }

  /** `s` without its leading sign, if it has one. */
  function Magnitude(s: string): string {
    if |s| > 0 && (s[0] == '+' || s[0] == '-') then s[1..] else s
  }

  predicate WellFormed(s: string) {
    |Magnitude(s)| > 0 && AllDigits(Magnitude(s))
  }

  /** A well-formed number holds nothing but signs and digits. */
  lemma WellFormedCharacters(s: string)
    requires WellFormed(s)
    ensures forall i :: 0 <= i < |s| ==> s[i] == '+' || s[i] == '-' || IsDigit(s[i])
  {
    forall i | 0 <= i < |s|
      ensures s[i] == '+' || s[i] == '-' || IsDigit(s[i])
    {
      if i > 0 && (s[0] == '+' || s[0] == '-') {
        assert s[i] == Magnitude(s)[i - 1];
      }
    }
  }

  function SignedValue(s: string): int
    requires WellFormed(s)
  {
    if Negative(s) then -(Decimal(Magnitude(s)) as int) else Decimal(Magnitude(s))
  }

  // ---------------------------------------------------------------------
  // The parser.

  /** The digit loop of `ParseUint`: reads `s` from the left, stops with a
      syntax error at the first non-digit and with a range error as soon as
      the accumulated value passes `maxVal`, whichever comes first. */
  function ScanUint(s: string, maxVal: nat): (p: Parsed)
    ensures p.err == NoError <==> AllDigits(s) && Decimal(s) <= maxVal
    ensures p.err == NoError ==> p.value == Decimal(s)
    ensures AllDigits(s) ==> p.err != ErrSyntax
    ensures p.err == ErrSyntax ==> p.value == 0
    ensures p.err == ErrRange ==> p.value == maxVal
    decreases |s|
  {
    if |s| == 0 then Parsed(0, NoError)
    else
      var prefix := ScanUint(s[..|s| - 1], maxVal);
      if prefix.err != NoError then prefix
      else if !IsDigit(s[|s| - 1]) then Parsed(0, ErrSyntax)
      else
        var n1 := prefix.value * 10 + DigitValue(s[|s| - 1]);
        if n1 > maxVal then Parsed(maxVal, ErrRange) else Parsed(n1, NoError)
  }

  /** `strconv.ParseUint(s, 10, bitSize)`. */
  function ParseUint(s: string, bitSize: nat): Parsed
    requires 1 <= bitSize <= 64
  {
    if |s| == 0 then Parsed(0, ErrSyntax) else ScanUint(s, Pow2(bitSize) - 1)
  }

  /** `strconv.ParseInt(s, 10, bitSize)` for a width of at least two bits
      (the one-bit case has a quirk of its own and is never used): accepts exactly an optionally
      signed decimal whose value fits in `bitSize` signed bits; a syntax
      error yields 0 and a range error the bound on the side of the sign. */
  function ParseInt(s: string, bitSize: nat): (p: Parsed)
    requires 2 <= bitSize <= 64
    ensures p.err == NoError <==>
              WellFormed(s) && -Pow2(bitSize - 1) <= SignedValue(s) < Pow2(bitSize - 1)
    ensures p.err == NoError ==> p.value == SignedValue(s)
    ensures WellFormed(s) ==> p.err != ErrSyntax
    ensures p.err == ErrSyntax ==> p.value == 0
    ensures p.err == ErrRange && !Negative(s) ==> p.value == Pow2(bitSize - 1) - 1
    ensures p.err == ErrRange && Negative(s) ==> p.value == -Pow2(bitSize - 1)
  {
    if |s| == 0 then Parsed(0, ErrSyntax)
    else
      var neg := s[0] == '-';
      var u := ParseUint(Magnitude(s), bitSize);
      if u.err == ErrSyntax then Parsed(0, ErrSyntax)
      else
        var cutoff: int := Pow2(bitSize - 1);
        assert Pow2(bitSize) == 2 * cutoff && cutoff >= 2;
        if !neg && u.value >= cutoff then Parsed(cutoff - 1, ErrRange)
        else if neg && u.value > cutoff then Parsed(-cutoff, ErrRange)
        else Parsed(if neg then -(u.value as int) else u.value, NoError)
  }

  // ---------------------------------------------------------------------
  // The printer, as the inverse of the parser.

  function DigitChar(d: nat): (c: char)
    requires d < 10
    ensures IsDigit(c) && DigitValue(c) == d
  {
    ('0' as int + d) as char
  }

  /** `strconv.Itoa` of a natural number. */
  function DecimalString(n: nat): string
    decreases n
  {
    if n < 10 then [DigitChar(n)] else DecimalString(n / 10) + [DigitChar(n % 10)]
  }

  /** `strconv.Itoa`. */
  function FormatInt(v: int): string {
    if v < 0 then "-" + DecimalString(-v) else DecimalString(v)
  }

  lemma {:induction false} DecimalStringDenotes(n: nat)
    ensures |DecimalString(n)| > 0
    ensures AllDigits(DecimalString(n))
    ensures Decimal(DecimalString(n)) == n
    decreases n
  {
    if n >= 10 {
      DecimalStringDenotes(n / 10);
      var s := DecimalString(n);
      assert s[..|s| - 1] == DecimalString(n / 10);
    }
  }

  /** Every value in range survives printing and parsing back. */
  lemma ParseFormatRoundTrip(v: int, bitSize: nat)
    requires 2 <= bitSize <= 64
    requires -Pow2(bitSize - 1) <= v < Pow2(bitSize - 1)
    ensures ParseInt(FormatInt(v), bitSize) == Parsed(v, NoError)
  {
    var s := FormatInt(v);
    if v < 0 {
      DecimalStringDenotes(-v);
      assert Magnitude(s) == DecimalString(-v);
    } else {
      DecimalStringDenotes(v);
      assert Magnitude(s) == DecimalString(v);
    }
  }
}
