/** Calendar dates as the web client handles them: a year, month and day on the
    proleptic Gregorian calendar; the one-day steps of `setDate(getDate() ± 1)`,
    which roll over month and year ends; and the texts the client keys dates by
    (`toISOString().split('T')[0]`, "YYYY-MM" and "YYYY"). */
module Dates {
  import opened Strings

  type Month = m: int | 1 <= m <= 12 witness 1
  type DayOfMonth = d: int | 1 <= d <= 31 witness 1

  datatype CivilDate = CivilDate(year: int, month: Month, day: DayOfMonth)

  predicate IsLeapYear(y: int) {
    y % 4 == 0 && (y % 100 != 0 || y % 400 == 0)
  }

  function DaysInMonth(y: int, m: Month): int {
    if m == 2 then (if IsLeapYear(y) then 29 else 28)
    else if m == 4 || m == 6 || m == 9 || m == 11 then 30
    else 31
  }

  /** The day exists in its month. */
  predicate Valid(d: CivilDate) {
    d.day <= DaysInMonth(d.year, d.month)
  }

  /** Chronological order: by year, then month, then day. */
  predicate Before(a: CivilDate, b: CivilDate) {
    || a.year < b.year
    || (a.year == b.year && a.month < b.month)
    || (a.year == b.year && a.month == b.month && a.day < b.day)
  }

  /** The next calendar day: the day after the last of a month is the first of
      the next month, and 31 December is followed by 1 January. No valid date
      lies strictly between a date and its successor. */
  function NextDay(d: CivilDate): (r: CivilDate)
    requires Valid(d)
    ensures Valid(r) && Before(d, r)
    ensures forall e :: Valid(e) && Before(d, e) ==> e == r || Before(r, e)
  {
    if d.day < DaysInMonth(d.year, d.month) then d.(day := d.day + 1)
    else if d.month < 12 then CivilDate(d.year, d.month + 1, 1)
    else CivilDate(d.year + 1, 1, 1)
  }

  /** The previous calendar day, with the same roll-over at month and year starts. */
  function PrevDay(d: CivilDate): (r: CivilDate)
    requires Valid(d)
    ensures Valid(r) && Before(r, d)
    ensures forall e :: Valid(e) && Before(e, d) ==> e == r || Before(e, r)
  {
    if d.day > 1 then d.(day := d.day - 1)
    else if d.month > 1 then CivilDate(d.year, d.month - 1, DaysInMonth(d.year, d.month - 1))
    else CivilDate(d.year - 1, 12, 31)
  }

  /** The two steps undo each other. */
  lemma StepsInverse(d: CivilDate)
    requires Valid(d)
    ensures PrevDay(NextDay(d)) == d
    ensures NextDay(PrevDay(d)) == d
  {
  }

  // ---------------------------------------------------------------------------
  // Key texts
  // ---------------------------------------------------------------------------

  lemma {:induction false} ParseNatLeadingZero(s: string)
    requires forall i :: 0 <= i < |s| ==> IsDigit(s[i])
    ensures ParseNat("0" + s) == ParseNat(s)
  {
    if |s| > 0 {
      var t := "0" + s;
      assert t[..|t| - 1] == "0" + s[..|s| - 1];
      ParseNatLeadingZero(s[..|s| - 1]);
    }
  }

  /** Decimal digits of `n`, left-padded with zeros to at least `width` characters
      (`String(n).padStart(width, '0')`). */
  function ZeroPad(n: nat, width: nat): (r: string)
    ensures |r| == (if |NatToString(n)| >= width then |NatToString(n)| else width)
    ensures forall i :: 0 <= i < |r| ==> IsDigit(r[i])
    ensures ParseNat(r) == n
  {
    ParseNatToString(n);
    PadDigits(NatToString(n), width, n)
  }

  function PadDigits(s: string, width: nat, n: nat): (r: string)
    requires forall i :: 0 <= i < |s| ==> IsDigit(s[i])
    requires ParseNat(s) == n
    ensures |r| == (if |s| >= width then |s| else width)
    ensures forall i :: 0 <= i < |r| ==> IsDigit(r[i])
    ensures ParseNat(r) == n
    decreases width - |s|
  {
    if |s| >= width then s
    else
      ParseNatLeadingZero(s);
      PadDigits("0" + s, width, n)
  }

  /** The year as `toISOString` writes it: four digits for years 0 to 9999,
      otherwise a sign and at least six digits. */
  function IsoYear(y: int): string {
    if 0 <= y <= 9999 then ZeroPad(y, 4)
    else if y > 9999 then "+" + ZeroPad(y, 6)
    else "-" + ZeroPad(-y, 6)
  }

  /** `toISOString().split('T')[0]`: "YYYY-MM-DD". */
  function DayKey(d: CivilDate): string {
    IsoYear(d.year) + "-" + ZeroPad(d.month, 2) + "-" + ZeroPad(d.day, 2)
  }

  /** `${getFullYear()}-${String(getMonth() + 1).padStart(2, '0')}`. */
  function MonthKey(d: CivilDate): string {
    IntToString(d.year) + "-" + ZeroPad(d.month, 2)
  }

  /** `${getFullYear()}`. */
  function YearKey(d: CivilDate): string {
    IntToString(d.year)
  }

  function Pow10(k: nat): nat {
    if k == 0 then 1 else 10 * Pow10(k - 1)
  }

  /** A number below 10^k has at most k digits. */
  lemma {:induction false} ShortNumber(n: nat, k: nat)
    requires 1 <= k && n < Pow10(k)
    ensures |NatToString(n)| <= k
  {
    if n >= 10 && k > 1 {
      ShortNumber(n / 10, k - 1);
    }
  }

  /** `k` is a YYYY-MM-DD key whose three numbers are the fields of `d`. */
  predicate ReadsAsDate(k: string, d: CivilDate) {
    && |k| == 10 && k[4] == '-' && k[7] == '-'
    && (forall i :: 0 <= i < 10 && i != 4 && i != 7 ==> IsDigit(k[i]))
    && ParseNat(k[..4]) == d.year && ParseNat(k[5..7]) == d.month && ParseNat(k[8..]) == d.day
  }

  /** In the years 0 to 9999 the day key is ten characters whose fields read
      back as the year, month and day, so two dates share a key only when they
      are the same date. */
  lemma DayKeyFields(d: CivilDate)
    requires 0 <= d.year <= 9999
    ensures ReadsAsDate(DayKey(d), d)
  {
    var y, m, dd := ZeroPad(d.year, 4), ZeroPad(d.month, 2), ZeroPad(d.day, 2);
    assert |NatToString(d.month)| <= 2 by {
      assert d.month < 100;
    }
    assert |NatToString(d.day)| <= 2;
    ShortNumber(d.year, 4);
    var k := DayKey(d);
    assert k == y + "-" + m + "-" + dd;
    assert k[..4] == y && k[5..7] == m && k[8..] == dd;
  }

  lemma DayKeyInjective(a: CivilDate, b: CivilDate)
    requires 0 <= a.year <= 9999 && 0 <= b.year <= 9999
    requires DayKey(a) == DayKey(b)
    ensures a == b
  {
    DayKeyFields(a);
    DayKeyFields(b);
  }
}
