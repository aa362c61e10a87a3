/**
 * The display name the trigger gives each execution it starts:
 * "auto-trigger-" followed by the UTC time formatted with '%Y%m%d-%H%M%S'.
 * The clock is an input; parsing the name back recovers the instant, so two
 * starts in different seconds never share a display name.
 */
module ExecutionName {
  import opened Wrappers

  /**
   * A broken-down UTC instant from `datetime.utcnow()`, truncated to whole
   * seconds because `strftime('%Y%m%d-%H%M%S')` drops the microseconds.
   */
  datatype DateTime = DateTime(year: int, month: int, day: int, hour: int, minute: int, second: int)

  /** Field ranges of a Python datetime, with a four-digit year. */
  predicate ValidClock(t: DateTime) {
    && 1000 <= t.year <= 9999
    && 1 <= t.month <= 12
    && 1 <= t.day <= 31
    && 0 <= t.hour <= 23
    && 0 <= t.minute <= 59
    && 0 <= t.second <= 59
  }

  const PREFIX: string := "auto-trigger-"

  function Pow10(n: nat): (r: nat)
    ensures r >= 1
  {
    if n == 0 then 1 else 10 * Pow10(n - 1)
  }

  predicate IsDigit(c: char) {
    '0' <= c <= '9'
  }

  function DigitChar(d: int): (c: char)
    requires 0 <= d <= 9
    ensures IsDigit(c) && c as int - '0' as int == d
  {
    ('0' as int + d) as char
  }

  /** `n` written in decimal, zero-padded to exactly `width` digits. */
  function Decimal(n: nat, width: nat): (s: string)
    requires n < Pow10(width)
    ensures |s| == width
    ensures forall i :: 0 <= i < |s| ==> IsDigit(s[i])
  {
    if width == 0 then [] else Decimal(n / 10, width - 1) + [DigitChar(n % 10)]
  }

  /** The value of a string of decimal digits. */
  function ParseDecimal(s: string): int {
    if s == [] then 0 else 10 * ParseDecimal(s[..|s| - 1]) + (s[|s| - 1] as int - '0' as int)
  }

  lemma {:induction false} ParseDecimalRoundTrip(n: nat, width: nat)
    requires n < Pow10(width)
    ensures ParseDecimal(Decimal(n, width)) == n
  {
    if width > 0 {
      var s := Decimal(n, width);
      assert s[..|s| - 1] == Decimal(n / 10, width - 1);
      ParseDecimalRoundTrip(n / 10, width - 1);
    }
  }

  /** `strftime('%Y%m%d-%H%M%S')` */
  function Timestamp(t: DateTime): (s: string)
    requires ValidClock(t)
    ensures |s| == 15 && s[8] == '-'
    ensures forall i :: 0 <= i < 15 && i != 8 ==> IsDigit(s[i])
  {
    Decimal(t.year, 4) + Decimal(t.month, 2) + Decimal(t.day, 2) + "-"
      + Decimal(t.hour, 2) + Decimal(t.minute, 2) + Decimal(t.second, 2)
  }

  /** `f"auto-trigger-{timestamp}"` */
  function DisplayName(t: DateTime): (name: string)
    requires ValidClock(t)
    ensures |name| == |PREFIX| + 15 == 28
    ensures name[..|PREFIX|] == PREFIX
  {
    PREFIX + Timestamp(t)
  }

  /** Reads an instant back out of a display name; None for any other string. */
  function ParseDisplayName(name: string): (r: Option<DateTime>)
    ensures r.Some? ==> |name| == 28 && name[..13] == PREFIX
  {
    if |name| == 28 && name[..13] == PREFIX && name[21] == '-' then
      Some(DateTime(ParseDecimal(name[13..17]), ParseDecimal(name[17..19]), ParseDecimal(name[19..21]),
                    ParseDecimal(name[22..24]), ParseDecimal(name[24..26]), ParseDecimal(name[26..28])))
    else
      None
  }

  /** Formatting loses nothing: the instant can be recovered from the display name. */
  lemma DisplayNameRoundTrip(t: DateTime)
    requires ValidClock(t)
    ensures ParseDisplayName(DisplayName(t)) == Some(t)
  {
    var name := DisplayName(t);
    assert name[13..17] == Decimal(t.year, 4);
    assert name[17..19] == Decimal(t.month, 2);
    assert name[19..21] == Decimal(t.day, 2);
    assert name[22..24] == Decimal(t.hour, 2);
    assert name[24..26] == Decimal(t.minute, 2);
    assert name[26..28] == Decimal(t.second, 2);
    ParseDecimalRoundTrip(t.year, 4);
    ParseDecimalRoundTrip(t.month, 2);
    ParseDecimalRoundTrip(t.day, 2);
    ParseDecimalRoundTrip(t.hour, 2);
    ParseDecimalRoundTrip(t.minute, 2);
    ParseDecimalRoundTrip(t.second, 2);
  }

  /** Starts triggered in different seconds get different display names. */
  lemma DisplayNameInjective(t1: DateTime, t2: DateTime)
    requires ValidClock(t1) && ValidClock(t2)
    ensures DisplayName(t1) == DisplayName(t2) <==> t1 == t2
  {
    DisplayNameRoundTrip(t1);
    DisplayNameRoundTrip(t2);
  }
}
