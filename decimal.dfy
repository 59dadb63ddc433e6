/**
 * Decimal text as Go's strconv reads and writes it on a 64-bit platform:
 * `strconv.Atoi` (ParseDecimal) and `strconv.Itoa` on lengths (FormatDecimal).
 */
module Decimal {
  import opened Wire

  const MAX_INT64: int := 0x7fff_ffff_ffff_ffff
  const MIN_INT64: int := -0x8000_0000_0000_0000
  const MAX_UINT64: int := 0xffff_ffff_ffff_ffff

  const ZERO: byte := 48  // '0'
  const NINE: byte := 57  // '9'

  predicate IsDigit(b: byte) { ZERO <= b <= NINE }

  function DigitValue(b: byte): nat
    requires IsDigit(b)
  {
    (b - ZERO) as nat
  }

  predicate AllDigits(d: Bytes) { forall i :: 0 <= i < |d| ==> IsDigit(d[i]) }

  /** The value of a numeral, most significant digit first (a reference definition). */
  function DigitsValue(d: Bytes): nat
    requires AllDigits(d)
  {
    if |d| == 0 then 0 else DigitsValue(d[..|d| - 1]) * 10 + DigitValue(d[|d| - 1])
  }

  predicate HasSign(t: Bytes) { |t| > 0 && (t[0] == PLUS || t[0] == MINUS) }

  /** The numeral of t once an optional leading sign is removed. */
  function Unsigned(t: Bytes): Bytes { if HasSign(t) then t[1..] else t }

  /** An optional sign followed by at least one decimal digit, and nothing else. */
  predicate IsDecimalText(t: Bytes) { |Unsigned(t)| > 0 && AllDigits(Unsigned(t)) }

  function DecimalValue(t: Bytes): int
    requires IsDecimalText(t)
  {
    if t[0] == MINUS then -(DigitsValue(Unsigned(t)) as int) else DigitsValue(Unsigned(t))
  }

  /** What strconv.ParseUint's digit loop ends with. */
  datatype UintScan = Value(n: nat) | SyntaxError | RangeError

  /**
   * strconv.ParseUint's loop over the digits, base 10, 64 bits: a byte that is
   * not a digit is a syntax error, a digit that takes the accumulated value past
   * 2^64 - 1 is a range error; whichever comes first ends the scan.
   */
  function ScanDigits(d: Bytes, acc: nat): (r: UintScan)
    ensures r.Value? ==> acc <= r.n
    ensures acc <= MAX_UINT64 && r.Value? ==> r.n <= MAX_UINT64
    decreases |d|
  {
    if |d| == 0 then Value(acc)
    else if !IsDigit(d[0]) then SyntaxError
    else if acc * 10 + DigitValue(d[0]) > MAX_UINT64 then RangeError
    else ScanDigits(d[1..], acc * 10 + DigitValue(d[0]))
  }

  /** The pair (int, error) that strconv.Atoi returns; ok means a nil error. */
  datatype ParsedInt = ParsedInt(value: int, ok: bool)

  /**
   * strconv.Atoi: a syntax error returns 0, a range error returns the int64
   * bound on the side of the sign.
   */
  function ParseDecimal(t: Bytes): ParsedInt
  {
    if |t| == 0 || |Unsigned(t)| == 0 then ParsedInt(0, false)
    else
      var neg := t[0] == MINUS;
      match ScanDigits(Unsigned(t), 0)
      case SyntaxError => ParsedInt(0, false)
      case RangeError => ParsedInt(if neg then MIN_INT64 else MAX_INT64, false)
      case Value(n) =>
        if !neg && n > MAX_INT64 then ParsedInt(MAX_INT64, false)
        else if neg && n > -MIN_INT64 then ParsedInt(MIN_INT64, false)
        else ParsedInt(if neg then -(n as int) else n, true)
  }

  /** strconv.Itoa on a non-negative value: its shortest decimal numeral. */
  function FormatDecimal(n: nat): Bytes
  {
    if n < 10 then [ZERO + n as byte]
    else FormatDecimal(n / 10) + [ZERO + (n % 10) as byte]
  }

  /** Itoa writes a nonempty run of digits, with no leading zero, whose value is n. */
  lemma {:induction false} FormatDecimalDigits(n: nat)
    ensures var d := FormatDecimal(n);
            && |d| > 0 && AllDigits(d) && DigitsValue(d) == n
            && (n == 0 || d[0] != ZERO)  // no leading zero
  {
    if n >= 10 {
      FormatDecimalDigits(n / 10);
      var prefix := FormatDecimal(n / 10);
      var d := FormatDecimal(n);
      assert d[..|d| - 1] == prefix;
    }
  }

  /** Scanning a concatenation scans the first part, then goes on from its value. */
  lemma {:induction false} ScanDigitsAppend(p: Bytes, q: Bytes, acc: nat)
    ensures ScanDigits(p + q, acc) ==
            match ScanDigits(p, acc)
            case Value(m) => ScanDigits(q, m)
            case e => e
    decreases |p|
  {
    if |p| > 0 {
      assert (p + q)[0] == p[0];
      assert (p + q)[1..] == p[1..] + q;
      if IsDigit(p[0]) && acc * 10 + DigitValue(p[0]) <= MAX_UINT64 {
        ScanDigitsAppend(p[1..], q, acc * 10 + DigitValue(p[0]));
      }
    } else {
      assert p + q == q;
    }
  }

  /** On a numeral the scan yields its value, or a range error when it exceeds 2^64 - 1. */
  lemma {:induction false} ScanDigitsOfNumeral(d: Bytes)
    requires AllDigits(d)
    ensures ScanDigits(d, 0) ==
            if DigitsValue(d) <= MAX_UINT64 then Value(DigitsValue(d)) else RangeError
    decreases |d|
  {
    if |d| > 0 {
      var p, x := d[..|d| - 1], d[|d| - 1];
      assert d == p + [x];
      ScanDigitsOfNumeral(p);
      ScanDigitsAppend(p, [x], 0);
    }
  }

  /** A scan that yields a value has only seen digits. */
  lemma {:induction false} ScanDigitsValueOnlyOnDigits(d: Bytes, acc: nat)
    requires ScanDigits(d, acc).Value?
    ensures AllDigits(d)
    decreases |d|
  {
    if |d| > 0 {
      ScanDigitsValueOnlyOnDigits(d[1..], acc * 10 + DigitValue(d[0]));
      forall i | 0 <= i < |d| ensures IsDigit(d[i]) {
        if i > 0 { assert d[i] == d[1..][i - 1]; }
      }
    }
  }

  /**
   * strconv.Atoi succeeds exactly on an optionally signed numeral whose value
   * fits in an int64, and then returns that value; on failure it returns 0 or
   * an int64 bound, the bound exactly when the text is a numeral that is too large.
   */
  lemma ParseDecimalMeaning(t: Bytes)
    ensures ParseDecimal(t).ok <==> IsDecimalText(t) && MIN_INT64 <= DecimalValue(t) <= MAX_INT64
    ensures ParseDecimal(t).ok ==> ParseDecimal(t).value == DecimalValue(t)
    ensures IsDecimalText(t) && !ParseDecimal(t).ok ==>
              ParseDecimal(t).value == if t[0] == MINUS then MIN_INT64 else MAX_INT64
    ensures !ParseDecimal(t).ok ==> ParseDecimal(t).value in {0, MIN_INT64, MAX_INT64}
    ensures MIN_INT64 <= ParseDecimal(t).value <= MAX_INT64
  {
    var u := Unsigned(t);
    if |t| > 0 && |u| > 0 {
      if AllDigits(u) {
        ScanDigitsOfNumeral(u);
      } else if ScanDigits(u, 0).Value? {
        ScanDigitsValueOnlyOnDigits(u, 0);
      }
    }
  }

  function Pow10(k: nat): (p: nat)
    ensures p >= 1
  {
    if k == 0 then 1 else 10 * Pow10(k - 1)
  }

  lemma Pow10Of19()
    ensures Pow10(19) == 10_000_000_000_000_000_000
  {
    assert Pow10(1) == 10;
    assert Pow10(2) == 100;
    assert Pow10(3) == 1000;
    assert Pow10(4) == 10000;
    assert Pow10(5) == 100000;
    assert Pow10(6) == 1000000;
    assert Pow10(7) == 10000000;
    assert Pow10(8) == 100000000;
    assert Pow10(9) == 1000000000;
    assert Pow10(10) == 10000000000;
    assert Pow10(11) == 100000000000;
    assert Pow10(12) == 1000000000000;
    assert Pow10(13) == 10000000000000;
    assert Pow10(14) == 100000000000000;
    assert Pow10(15) == 1000000000000000;
    assert Pow10(16) == 10000000000000000;
    assert Pow10(17) == 100000000000000000;
    assert Pow10(18) == 1000000000000000000;
    assert Pow10(19) == 10000000000000000000;
  }

  lemma {:induction false} Pow10Grows(j: nat, k: nat)
    requires j <= k
    ensures Pow10(j) <= Pow10(k)
    decreases k
  {
    if j < k {
      Pow10Grows(j, k - 1);
    }
  }

  /**
   * A scan that meets a non-digit at index i, having started from a value small
   * enough for the i digits before it, ends in a syntax error: those digits
   * cannot take the value past 2^64 - 1 first.
   */
  lemma {:induction false} ScanMeetsNonDigit(d: Bytes, acc: nat, i: nat)
    requires i < |d| && !IsDigit(d[i]) && i <= 19
    requires acc < Pow10(19 - i)
    ensures ScanDigits(d, acc) == SyntaxError
    decreases i
  {
    if IsDigit(d[0]) {
      var next := acc * 10 + DigitValue(d[0]);
      assert Pow10(20 - i) == 10 * Pow10(19 - i);
      assert next < Pow10(20 - i);
      Pow10Grows(20 - i, 19);
      Pow10Of19();
      assert d[1..][i - 1] == d[i];
      ScanMeetsNonDigit(d[1..], next, i - 1);
    }
  }

  /**
   * Text whose unsigned part is empty, or has a non-digit among its first 20
   * bytes, is a syntax error, and Atoi then returns 0. (Only 20 or more digits
   * before the first non-digit can overflow first and give a range error.)
   */
  lemma SyntaxErrorIsZero(t: Bytes, i: nat)
    requires var u := Unsigned(t); |u| == 0 || (i < |u| && i <= 19 && !IsDigit(u[i]))
    ensures ParseDecimal(t) == ParsedInt(0, false)
  {
    var u := Unsigned(t);
    if |u| > 0 {
      ScanMeetsNonDigit(u, 0, i);
    }
  }

  /** In particular every non-numeral of at most 19 bytes after its sign is read as 0. */
  lemma ShortNonNumeralIsZero(t: Bytes)
    requires !IsDecimalText(t) && |Unsigned(t)| <= 19
    ensures ParseDecimal(t) == ParsedInt(0, false)
  {
    var u := Unsigned(t);
    if |u| == 0 {
      SyntaxErrorIsZero(t, 0);
    } else {
      var i :| 0 <= i < |u| && !IsDigit(u[i]);
      SyntaxErrorIsZero(t, i);
    }
  }

  /** Atoi reads back what Itoa writes, for every value an int64 can hold. */
  lemma FormatDecimalRoundTrip(n: nat)
    requires n <= MAX_INT64
    ensures ParseDecimal(FormatDecimal(n)) == ParsedInt(n, true)
  {
    var d := FormatDecimal(n);
    FormatDecimalDigits(n);
    assert !HasSign(d);
    ParseDecimalMeaning(d);
  }
}
