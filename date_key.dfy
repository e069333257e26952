/**
 * The text key a (year, month) query is turned into, `f"{year}-{month:02d}-01"`,
 * and the ISO `Y-MM-DD` reading of such a key that the date-indexed lookup
 * performs before matching it against the index.
 */
module DateKey {

  import opened Wrappers
  import opened Calendar

  predicate IsDigit(c: char) {
    '0' <= c <= '9'
  }

  predicate AllDigits(s: string) {
    forall i :: 0 <= i < |s| ==> IsDigit(s[i])
  }

  function DigitChar(n: int): (c: char)
    requires 0 <= n < 10
    ensures IsDigit(c)
  {
    ('0' as int + n) as char
  }

  function DigitValue(c: char): (n: int)
    requires IsDigit(c)
    ensures 0 <= n < 10
  {
    c as int - '0' as int
  }

  /** The decimal numeral of `n`, without leading zeros (Python's `str(n)`). */
  function Decimal(n: nat): (s: string)
    ensures 0 < |s| && AllDigits(s)
    decreases n
  {
    if n < 10 then [DigitChar(n)] else Decimal(n / 10) + [DigitChar(n % 10)]
  }

  /** The number a string of decimal digits denotes. */
  function ParseDigits(s: string): (n: nat)
    requires AllDigits(s)
  {
    if |s| == 0 then 0 else ParseDigits(s[..|s| - 1]) * 10 + DigitValue(s[|s| - 1])
  }

  lemma {:induction false} DecimalRoundTrip(n: nat)
    ensures ParseDigits(Decimal(n)) == n
    decreases n
  {
    if n >= 10 {
      var s := Decimal(n);
      assert s[..|s| - 1] == Decimal(n / 10);
      DecimalRoundTrip(n / 10);
    }
  }

  /** Numerals of one digit are the numbers below 10, of at most two digits
      the numbers below 100. */
  lemma DecimalLength(n: nat)
    ensures |Decimal(n)| == 1 <==> n < 10
    ensures |Decimal(n)| == 2 <==> 10 <= n < 100
  {
    if n >= 10 {
      DecimalLength(n / 10);
    }
  }

  /** `{m:02d}`: the numeral of `m`, zero-padded to at least two digits. */
  function ZeroPad2(m: nat): (s: string)
    ensures 2 <= |s| && AllDigits(s)
    ensures |s| == 2 <==> m < 100
    ensures |s| == 2 ==> DigitValue(s[0]) * 10 + DigitValue(s[1]) == m
    ensures m < 10 ==> s[0] == '0'
  {
    DecimalLength(m);
    if m < 10 then "0" + Decimal(m) else Decimal(m)
  }

  /** The number of leading decimal digits of `s`. */
  function LeadingDigits(s: string): (n: nat)
    ensures n <= |s| && AllDigits(s[..n])
    ensures n < |s| ==> !IsDigit(s[n])
  {
    if |s| == 0 || !IsDigit(s[0]) then 0
    else
      var k := LeadingDigits(s[1..]);
      assert s[..k + 1] == [s[0]] + s[1..][..k];
      k + 1
  }

  /**
   * Reads `key` as an ISO date `Y-MM-DD` (a run of year digits, then two
   * month digits and two day digits separated by dashes); `None` for any
   * other text or for a date the calendar does not have.
   */
  function ParseKey(key: string): (r: Option<Date>)
    ensures r.Some? ==> Valid(r.value)
  {
    var n := LeadingDigits(key);
    if 0 < n && |key| == n + 6 && key[n] == '-' && key[n + 3] == '-'
       && IsDigit(key[n + 1]) && IsDigit(key[n + 2])
       && IsDigit(key[n + 4]) && IsDigit(key[n + 5])
    then
      var year := ParseDigits(key[..n]);
      var month := DigitValue(key[n + 1]) * 10 + DigitValue(key[n + 2]);
      var day := DigitValue(key[n + 4]) * 10 + DigitValue(key[n + 5]);
      if 1 <= month <= 12 && 1 <= day <= DaysInMonth(year, month)
      then Some(Date(year, month, day))
      else None
    else None
  }

  /** A run of digits followed by a non-digit has exactly that many leading digits. */
  lemma LeadingDigitsOfNumeral(digits: string, rest: string)
    requires AllDigits(digits) && 0 < |rest| && !IsDigit(rest[0])
    ensures LeadingDigits(digits + rest) == |digits|
  {
    var s := digits + rest;
    assert s[|digits|] == rest[0];
    assert forall i :: 0 <= i < |digits| ==> s[i] == digits[i];
    assert forall i :: 0 <= i <= |digits| ==> s[..i] == digits[..i];
  }

  /** For a month in 1..12, the text `{year}-{month:02d}-01` reads as the
      first day of that month. */
  lemma KeyTextInCalendar(year: nat, month: nat)
    requires 1 <= month <= 12
    ensures ParseKey(Decimal(year) + "-" + ZeroPad2(month) + "-01") == Some(Date(year, month, 1))
  {
    var y := Decimal(year);
    var p := ZeroPad2(month);
    var key := Decimal(year) + "-" + p + "-01";
    assert key == y + ['-', p[0], p[1], '-', '0', '1'];
    LeadingDigitsOfNumeral(y, key[|y|..]);
    assert key[..|y|] == y;
    DecimalRoundTrip(year);
  }

  /** For month 0 or a month above 12, the text reads as no date. */
  lemma KeyTextOutsideCalendar(year: nat, month: nat)
    requires month == 0 || 12 < month
    ensures ParseKey(Decimal(year) + "-" + ZeroPad2(month) + "-01") == None
  {
    var y := Decimal(year);
    var key := Decimal(year) + "-" + ZeroPad2(month) + "-01";
    assert key == y + ("-" + ZeroPad2(month) + "-01");
    LeadingDigitsOfNumeral(y, key[|y|..]);
  }

  /**
   * The lookup key `f"{year}-{month:02d}-01"`. It always names the first day
   * of the selected month; a month number outside 1..12 gives a key that
   * names no date.
   */
  function Key(year: nat, month: nat): (key: string)
    ensures ParseKey(key) == if 1 <= month <= 12 then Some(Date(year, month, 1)) else None
  {
    if 1 <= month <= 12 then
      KeyTextInCalendar(year, month);
      Decimal(year) + "-" + ZeroPad2(month) + "-01"
    else
      KeyTextOutsideCalendar(year, month);
      Decimal(year) + "-" + ZeroPad2(month) + "-01"
  }

  /** Different months get different keys. */
  lemma KeyInjective(y1: nat, m1: nat, y2: nat, m2: nat)
    requires 1 <= m1 <= 12 && 1 <= m2 <= 12
    ensures Key(y1, m1) == Key(y2, m2) <==> y1 == y2 && m1 == m2
  {
    assert ParseKey(Key(y1, m1)) == Some(Date(y1, m1, 1));
    assert ParseKey(Key(y2, m2)) == Some(Date(y2, m2, 1));
  }

}
