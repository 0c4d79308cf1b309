/**
 The data shared by every detector: the dynamically typed rows the row source
 returns, the verdict a detector produces (QueryResultItem with its ordered
 ResultDetail evidence), the decimal rendering of numbers that fills the
 evidence values, and the few pieces of Java number semantics the detectors
 rely on.
 */
module Common {

  datatype Option<+T> = None | Some(value: T)

  /** A field value of a query row, as the row source hands it over.
      Dates are whole day numbers. */
  datatype Value = Null | Long(n: int) | Decimal(d: real) | Double(x: real) | Date(day: int)

  /** One record of a result set: field name to value. */
  type Row = map<string, Value>

  type ResultSet = seq<Row>

  /** `Map.get`: a field the row does not hold reads as null. */
  function Field(row: Row, key: string): (v: Value)
    ensures key !in row ==> v == Null
    ensures key in row ==> v == row[key]
  {
    if key in row then row[key] else Null
  }

  /** Identity of an anti-pattern: numeric id, display name, short code. */
  datatype AntiPattern = AntiPattern(id: int, printName: string, name: string)

  /** One labelled piece of evidence. */
  datatype ResultDetail = ResultDetail(name: string, value: string)

  /** The verdict of one `analyze` call. */
  datatype QueryResultItem = QueryResultItem(antiPattern: AntiPattern, detected: bool, details: seq<ResultDetail>)

  // ---------------------------------------------------------------------
  // Decimal rendering (String.valueOf / Long.toString / Integer.toString)
  // ---------------------------------------------------------------------

  predicate IsDigit(c: char) {
    '0' <= c <= '9'
  }

  function DigitChar(d: nat): (c: char)
    requires d < 10
    ensures IsDigit(c) && c as int - '0' as int == d
  {
    (d + '0' as int) as char
  }

  /** Decimal digits of `n`, most significant first, without leading zeros. */
  function NatToString(n: nat): (s: string)
    ensures |s| > 0
    ensures forall i :: 0 <= i < |s| ==> IsDigit(s[i])
    ensures |s| > 1 ==> s[0] != '0'
  {
    if n < 10 then [DigitChar(n)] else NatToString(n / 10) + [DigitChar(n % 10)]
  }

  /** Java's decimal rendering of an integer: a minus sign for negatives. */
  function IntToString(n: int): (s: string)
    ensures |s| > 0
    ensures (s[0] == '-') <==> n < 0
  {
    if n < 0 then "-" + NatToString(-n) else NatToString(n)
  }

  function DigitValue(c: char): nat
    requires IsDigit(c)
  {
    c as int - '0' as int
  }

  /** Reads back a string of decimal digits. */
  function ParseNat(s: string): nat
    requires forall i :: 0 <= i < |s| ==> IsDigit(s[i])
  {
    if s == [] then 0 else ParseNat(s[..|s| - 1]) * 10 + DigitValue(s[|s| - 1])
  }

  /** Reads back what IntToString writes. */
  function ParseInt(s: string): int
    requires |s| > 0
    requires forall i :: 0 < i < |s| ==> IsDigit(s[i])
    requires s[0] == '-' || IsDigit(s[0])
  {
    if s[0] == '-' then 0 - ParseNat(s[1..]) else ParseNat(s)
  }

  lemma {:induction false} NatToStringRoundTrip(n: nat)
    ensures ParseNat(NatToString(n)) == n
  {
    if n >= 10 {
      var s := NatToString(n);
      assert s[..|s| - 1] == NatToString(n / 10);
      NatToStringRoundTrip(n / 10);
    }
  }

  /** Every number rendered into the evidence can be read back exactly:
      the evidence values determine the counts they report. */
  lemma IntToStringRoundTrip(n: int)
    ensures ParseInt(IntToString(n)) == n
  {
    if n < 0 {
      NatToStringRoundTrip(-n);
      assert IntToString(n)[1..] == NatToString(-n);
    } else {
      NatToStringRoundTrip(n);
    }
  }

  /** Distinct numbers give distinct evidence values. */
  lemma IntToStringInjective(m: int, n: int)
    requires IntToString(m) == IntToString(n)
    ensures m == n
  {
    IntToStringRoundTrip(m);
    IntToStringRoundTrip(n);
  }

  // ---------------------------------------------------------------------
  // Java number semantics
  // ---------------------------------------------------------------------

  const IntMin: int := -0x8000_0000
  const IntMax: int := 0x7fff_ffff

  predicate IsInt32(x: int) {
    IntMin <= x <= IntMax
  }

  /** Two's-complement wrap-around of a Java `int` result. */
  function Wrap32(x: int): (r: int)
    ensures IsInt32(r)
    ensures (r - x) % 0x1_0000_0000 == 0
    ensures IsInt32(x) ==> r == x
  {
    (x - IntMin) % 0x1_0000_0000 + IntMin
  }

  /** `Math.abs(int)`: the negation wraps, so the absolute value of
      Integer.MIN_VALUE is Integer.MIN_VALUE itself. */
  function JavaAbs(x: int): (r: int)
    requires IsInt32(x)
    ensures IsInt32(r)
    ensures x != IntMin ==> r >= 0 && (r == x || r == -x)
    ensures x == IntMin ==> r == IntMin
  {
    if x < 0 then Wrap32(-x) else x
  }

  /** `BigDecimal.toBigInteger()`: the fraction is discarded, rounding toward
      zero (`intValue()` then keeps the low 32 bits, see Wrap32). */
  function TruncateToInt(x: real): (r: int)
    ensures 0.0 <= x ==> 0 <= r && r as real <= x < r as real + 1.0
    ensures x < 0.0 ==> r <= 0 && r as real - 1.0 < x <= r as real
  {
    if x >= 0.0 then x.Floor else -((-x).Floor)
  }

  /** `Utils.daysBetween(first, second)`: the signed number of days from
      `first` to `second`, dates being day numbers. */
  function DaysBetween(first: int, second: int): (d: int)
    ensures first + d == second
  {
    second - first
  }
}
