/** Calendar dates as Python's datetime.date holds them (proleptic Gregorian,
    years 1 to 9999), the "%Y-%m-%d" parsing and rendering the reports use,
    and the inclusive day range _daterange in backend/app/api/reports.py. */
module Dates {
  import opened Wrappers
  import opened Text
  import opened Numbers

  datatype Date = Date(year: int, month: int, day: int)

  const MinYear: int := 1
  const MaxYear: int := 9999

  predicate IsLeap(y: int) {
    y % 4 == 0 && (y % 100 != 0 || y % 400 == 0)
  }

  function DaysIn(y: int, m: int): (n: int)
    ensures 28 <= n <= 31
  {
    if m == 2 then (if IsLeap(y) then 29 else 28)
    else if m == 4 || m == 6 || m == 9 || m == 11 then 30
    else 31
  }

  predicate Valid(d: Date) {
    MinYear <= d.year <= MaxYear && 1 <= d.month <= 12 && 1 <= d.day <= DaysIn(d.year, d.month)
  }

  const MaxDate: Date := Date(MaxYear, 12, 31)

  /** Python compares dates as (year, month, day) tuples. */
  predicate Before(a: Date, b: Date) {
    a.year < b.year
    || (a.year == b.year && (a.month < b.month || (a.month == b.month && a.day < b.day)))
  }

  predicate AtMost(a: Date, b: Date) {
    Before(a, b) || a == b
  }

  // ---------------------------------------------------------------------------
  // Ordinals: day 1 is 0001-01-01, as date.toordinal()

  function YearLen(y: int): int {
    if IsLeap(y) then 366 else 365
  }

  function DaysBeforeYear(y: int): int
    requires y >= 1
  {
    var p := y - 1;
    365 * p + p / 4 - p / 100 + p / 400
  }

  /** Days in the months before m (m = 13 gives the whole year). */
  function DaysBeforeMonth(y: int, m: int): int
    requires 1 <= m <= 13
  {
    (if m == 1 then 0 else if m == 2 then 31 else if m == 3 then 59 else if m == 4 then 90
     else if m == 5 then 120 else if m == 6 then 151 else if m == 7 then 181 else if m == 8 then 212
     else if m == 9 then 243 else if m == 10 then 273 else if m == 11 then 304 else if m == 12 then 334
     else 365)
    + (if m > 2 && IsLeap(y) then 1 else 0)
  }

  function Ordinal(d: Date): int
    requires Valid(d)
  {
    DaysBeforeYear(d.year) + DaysBeforeMonth(d.year, d.month) + d.day
  }

  lemma DaysBeforeYearStep(y: int)
    requires y >= 1
    ensures DaysBeforeYear(y + 1) == DaysBeforeYear(y) + YearLen(y)
  {
    DivStep(y, 4);
    DivStep(y, 100);
    DivStep(y, 400);
    Multiples(y);
    var p := y - 1;
    var a, b, c := y / 4 - p / 4, y / 100 - p / 100, y / 400 - p / 400;
    assert DaysBeforeYear(y + 1) - DaysBeforeYear(y) == 365 + a - b + c;
    assert YearLen(y) == 365 + a - b + c;
  }

  /** A multiple of 400 is one of 100, and a multiple of 100 one of 4. */
  lemma Multiples(y: int)
    ensures y % 400 == 0 ==> y % 100 == 0
    ensures y % 100 == 0 ==> y % 4 == 0
  {
    if y % 400 == 0 {
      var q := y / 400;
      assert y == (4 * q) * 100 + 0;
      DivUnique(y, 100, 4 * q, 0);
    }
    if y % 100 == 0 {
      var q := y / 100;
      assert y == (25 * q) * 4 + 0;
      DivUnique(y, 4, 25 * q, 0);
    }
  }

  /** The quotient by d grows by one exactly at multiples of d. */
  lemma DivStep(y: int, d: int)
    requires y >= 1 && d > 0
    ensures y / d - (y - 1) / d == (if y % d == 0 then 1 else 0)
  {
    var q, r := y / d, y % d;
    assert y == q * d + r;
    if r == 0 {
      assert y - 1 == (q - 1) * d + (d - 1);
      DivUnique(y - 1, d, q - 1, d - 1);
    } else {
      assert y - 1 == q * d + (r - 1);
      DivUnique(y - 1, d, q, r - 1);
    }
  }

  /** n == q * d + r with 0 <= r < d fixes the quotient. */
  lemma DivUnique(n: int, d: int, q: int, r: int)
    requires d > 0 && 0 <= r < d && n == q * d + r
    ensures n / d == q && n % d == r
  {
    var q', r' := n / d, n % d;
    assert n == q' * d + r' && 0 <= r' < d;
    var k := q' - q;
    assert k * d == q' * d - q * d;
    assert k * d == r - r';
    if k >= 1 {
      MulAtLeast(k, d);
    } else if k <= -1 {
      assert (-k) * d == r' - r;
      MulAtLeast(-k, d);
    }
  }

  lemma MulAtLeast(k: int, d: int)
    requires k >= 1 && d > 0
    ensures k * d >= d
  {
    assert k * d == (k - 1) * d + d;
    assert (k - 1) * d >= 0;
  }

  lemma {:induction false} DaysBeforeYearGrows(y1: int, y2: int)
    requires 1 <= y1 < y2
    ensures DaysBeforeYear(y1 + 1) <= DaysBeforeYear(y2)
    decreases y2 - y1
  {
    if y1 + 1 < y2 {
      DaysBeforeYearGrows(y1, y2 - 1);
      DaysBeforeYearStep(y2 - 1);
    }
  }

  lemma DaysBeforeMonthStep(y: int, m: int)
    requires 1 <= m <= 12
    ensures DaysBeforeMonth(y, m + 1) == DaysBeforeMonth(y, m) + DaysIn(y, m)
  {
  }

  lemma {:induction false} DaysBeforeMonthGrows(y: int, m1: int, m2: int)
    requires 1 <= m1 < m2 <= 13
    ensures DaysBeforeMonth(y, m1) + DaysIn(y, m1) <= DaysBeforeMonth(y, m2)
    decreases m2 - m1
  {
    DaysBeforeMonthStep(y, m1);
    if m1 + 1 < m2 {
      DaysBeforeMonthGrows(y, m1 + 1, m2);
    }
  }

  /** A date's ordinal lies within its year. */
  lemma OrdinalInYear(d: Date)
    requires Valid(d)
    ensures DaysBeforeYear(d.year) < Ordinal(d) <= DaysBeforeYear(d.year + 1)
  {
    DaysBeforeYearStep(d.year);
    DaysBeforeMonthGrows(d.year, d.month, 13);
  }

  /** The tuple order of valid dates is the order of their ordinals. */
  lemma BeforeIsOrdinalOrder(a: Date, b: Date)
    requires Valid(a) && Valid(b)
    ensures Before(a, b) <==> Ordinal(a) < Ordinal(b)
    ensures a == b <==> Ordinal(a) == Ordinal(b)
  {
    OrdinalInYear(a);
    OrdinalInYear(b);
    if a.year < b.year {
      DaysBeforeYearGrows(a.year, b.year);
    } else if b.year < a.year {
      DaysBeforeYearGrows(b.year, a.year);
    } else if a.month < b.month {
      DaysBeforeMonthGrows(a.year, a.month, b.month);
    } else if b.month < a.month {
      DaysBeforeMonthGrows(a.year, b.month, a.month);
    }
  }

  /** date + timedelta(days=1): None where Python raises OverflowError. */
  function Next(d: Date): (r: Option<Date>)
    requires Valid(d)
    ensures r.None? <==> d == MaxDate
    ensures r.Some? ==> Valid(r.value) && Ordinal(r.value) == Ordinal(d) + 1
  {
    if d.day < DaysIn(d.year, d.month) then Some(Date(d.year, d.month, d.day + 1))
    else if d.month < 12 then
      DaysBeforeMonthStep(d.year, d.month);
      Some(Date(d.year, d.month + 1, 1))
    else if d.year < MaxYear then
      DaysBeforeYearStep(d.year);
      Some(Date(d.year + 1, 1, 1))
    else None
  }

  // ---------------------------------------------------------------------------
  // The inclusive range

  /** Every date from start to end inclusive, ascending. When end is the
      largest date, the step past it overflows. */
  function Days(start: Date, end: Date): (r: seq<Date>)
    requires Valid(start) && Valid(end)
    ensures forall k :: 0 <= k < |r| ==> Valid(r[k])
    decreases Ordinal(end) - Ordinal(start) + 1
  {
    BeforeIsOrdinalOrder(start, end);
    if !AtMost(start, end) then []
    else match Next(start)
      case None => [start]
      case Some(n) => [start] + Days(n, end)
  }

  /** The range holds end - start + 1 consecutive dates (none if end < start),
      the k-th of which has ordinal start + k. */
  lemma {:induction false} DaysAreConsecutive(start: Date, end: Date)
    requires Valid(start) && Valid(end)
    ensures var r := Days(start, end);
            |r| == (if AtMost(start, end) then Ordinal(end) - Ordinal(start) + 1 else 0)
    ensures forall k :: 0 <= k < |Days(start, end)| ==>
              Valid(Days(start, end)[k]) && Ordinal(Days(start, end)[k]) == Ordinal(start) + k
    decreases Ordinal(end) - Ordinal(start) + 1
  {
    BeforeIsOrdinalOrder(start, end);
    if AtMost(start, end) {
      match Next(start)
      case None =>
        BeforeIsOrdinalOrder(end, MaxDate);
      case Some(n) =>
        BeforeIsOrdinalOrder(n, end);
        DaysAreConsecutive(n, end);
    }
  }

  /** The generator's loop: the dates yielded, and whether the final step
      overflowed. */
  method DateRange(start: Date, end: Date) returns (days: seq<Date>, overflow: bool)
    requires Valid(start) && Valid(end)
    ensures days == Days(start, end)
    ensures overflow <==> AtMost(start, end) && end == MaxDate
  {
    var cur := start;
    days := [];
    overflow := false;
    BeforeIsOrdinalOrder(start, end);
    while AtMost(cur, end)
      invariant Valid(cur)
      invariant AtMost(start, end) ==> Days(start, end) == days + Days(cur, end)
      invariant !AtMost(start, end) ==> days == [] && cur == start
      invariant !overflow
      decreases Ordinal(end) - Ordinal(cur)
    {
      BeforeIsOrdinalOrder(cur, end);
      days := days + [cur];
      match Next(cur)
      case None =>
        assert Days(cur, end) == [cur];
        overflow := true;
        assert cur == end by {
          BeforeIsOrdinalOrder(end, MaxDate);
        }
        return;
      case Some(n) =>
        BeforeIsOrdinalOrder(n, end);
        assert Days(cur, end) == [cur] + Days(n, end);
        cur := n;
    }
    BeforeIsOrdinalOrder(cur, end);
    assert Days(cur, end) == [];
    if AtMost(start, end) {
      BeforeIsOrdinalOrder(end, MaxDate);
    }
  }

  // ---------------------------------------------------------------------------
  // "%Y-%m-%d"

  /** The %Y field: exactly four ASCII digits. */
  predicate YearText(t: string) {
    |t| == 4 && All(t, IsDigit)
  }

  /** The %m field: 1[0-2] | 0[1-9] | [1-9]. */
  predicate MonthText(t: string) {
    (|t| == 1 && '1' <= t[0] <= '9')
    || (|t| == 2 && ((t[0] == '1' && '0' <= t[1] <= '2') || (t[0] == '0' && '1' <= t[1] <= '9')))
  }

  /** The %d field: 3[01] | [12]\d | 0[1-9] | [1-9] | " "[1-9]. */
  predicate DayText(t: string) {
    (|t| == 1 && '1' <= t[0] <= '9')
    || (|t| == 2 && ((t[0] == '3' && '0' <= t[1] <= '1') || ('1' <= t[0] <= '2' && IsDigit(t[1]))
                     || (t[0] == '0' && '1' <= t[1] <= '9') || (t[0] == ' ' && '1' <= t[1] <= '9')))
  }

  function FieldValue(t: string): nat {
    if |t| == 2 && t[0] == ' ' && IsDigit(t[1]) then DigitsValue(t[1..])
    else if All(t, IsDigit) then DigitsValue(t) else 0
  }

  /** datetime.strptime(s, "%Y-%m-%d").date(): the whole text must match the
      three fields and name a real date of years 1 to 9999. */
  function ParseDate(s: string): (r: Option<Date>)
    ensures r.Some? ==> Valid(r.value)
  {
    if |s| < 5 || !YearText(s[..4]) || s[4] != '-' then None
    else match SplitOnce(s[5..], '-')
      case None => None
      case Some((m, d)) =>
        if !MonthText(m) || !DayText(d) then None
        else
          var date := Date(DigitsValue(s[..4]), FieldValue(m), FieldValue(d));
          if Valid(date) then Some(date) else None
  }

  function Pad(n: nat, width: nat): (s: string)
    ensures |s| >= width && All(s, IsDigit)
  {
    var digits := NatToString(n);
    if |digits| >= width then digits else seq(width - |digits|, _ => '0') + digits
  }

  /** date.strftime("%Y-%m-%d"), with the year zero-filled to four digits. */
  function FormatDate(d: Date): string
    requires Valid(d)
  {
    Pad(d.year, 4) + "-" + Pad(d.month, 2) + "-" + Pad(d.day, 2)
  }

  // ---------------------------------------------------------------------------
  // Rendering then parsing gives the date back

  lemma {:induction false} ZerosValue(k: nat)
    ensures All(seq(k, _ => '0'), IsDigit) && DigitsValue(seq(k, _ => '0')) == 0
  {
    if k > 0 {
      var z := seq(k, _ => '0');
      assert z[..k - 1] == seq(k - 1, _ => '0');
      ZerosValue(k - 1);
    }
  }

  lemma {:induction false} LeadingZerosValue(k: nat, s: string)
    requires All(s, IsDigit)
    ensures All(seq(k, _ => '0') + s, IsDigit)
    ensures DigitsValue(seq(k, _ => '0') + s) == DigitsValue(s)
    decreases |s|
  {
    var z := seq(k, _ => '0');
    ZerosValue(k);
    if |s| == 0 {
      assert z + s == z;
    } else {
      var t := s[..|s| - 1];
      assert (z + s)[..|z + s| - 1] == z + t;
      LeadingZerosValue(k, t);
    }
  }

  lemma PadValue(n: nat, width: nat)
    ensures DigitsValue(Pad(n, width)) == n
  {
    var digits := NatToString(n);
    NatToStringValue(n);
    if |digits| < width {
      LeadingZerosValue(width - |digits|, digits);
    }
  }

  lemma {:induction false} NatToStringLength(n: nat, k: nat)
    requires k >= 1 && n < Pow10(k)
    ensures |NatToString(n)| <= k
    decreases k
  {
    if n >= 10 {
      NatToStringLength(n / 10, k - 1);
    }
  }

  /** Two-digit rendering of 1 to 99. */
  lemma PadTwo(n: nat)
    requires 1 <= n < 100
    ensures Pad(n, 2) == [DigitChar(n / 10), DigitChar(n % 10)]
  {
    if n >= 10 {
      assert NatToString(n) == NatToString(n / 10) + [DigitChar(n % 10)];
      assert NatToString(n / 10) == [DigitChar(n / 10)];
    }
  }

  /** The month and day fields as written match their patterns and read back
      as the numbers written. */
  lemma FieldsReadBack(d: Date)
    requires Valid(d)
    ensures MonthText(Pad(d.month, 2)) && FieldValue(Pad(d.month, 2)) == d.month
    ensures DayText(Pad(d.day, 2)) && FieldValue(Pad(d.day, 2)) == d.day
    ensures '-' !in Pad(d.month, 2)
  {
    PadTwo(d.month);
    PadTwo(d.day);
    PadValue(d.month, 2);
    PadValue(d.day, 2);
  }

  /** The year field as written is four digits that read back as the year. */
  lemma YearReadsBack(d: Date)
    requires Valid(d)
    ensures |Pad(d.year, 4)| == 4 && YearText(Pad(d.year, 4))
    ensures DigitsValue(Pad(d.year, 4)) == d.year
  {
    NatToStringLength(d.year, 4);
    PadValue(d.year, 4);
  }

  lemma FieldsAfterYear(y: string, m: string, dd: string)
    requires |y| == 4
    ensures var s := y + "-" + m + "-" + dd;
      s[..4] == y && s[4] == '-' && s[5..] == m + ['-'] + dd
  {
    var s := y + "-" + m + "-" + dd;
    assert s == y + (['-'] + m + ['-'] + dd);
  }

  /** strptime reads back what strftime writes: the "%Y-%m-%d" text of a
      date parses to that date. */
  lemma ParseFormat(d: Date)
    requires Valid(d)
    ensures ParseDate(FormatDate(d)) == Some(d)
  {
    var y := Pad(d.year, 4);
    var m := Pad(d.month, 2);
    var dd := Pad(d.day, 2);
    YearReadsBack(d);
    FieldsReadBack(d);
    var s := FormatDate(d);
    FieldsAfterYear(y, m, dd);
    SplitOnceAt(m, dd, '-');
  }
}
