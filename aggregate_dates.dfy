/** What `bucketDate` (api/src/aggregation/aggregate.ts) computes for each mode. */
module AggregateDates {
  import opened Text
  import opened Common
  import opened Aggregate

  /** `day` and no mode leave the date as it is. */
  lemma BucketIdentity(iso: string, mode: Option<DateBucket>)
    requires mode == None || mode == Some(Day)
    ensures BucketDate(iso, mode) == iso
  {
  }

  /** `month` keeps the year (as `Number` prints it) and the two month digits as written, so a
      date whose year has no leading zero is cut to its `YYYY-MM` prefix. */
  lemma BucketMonth(iso: string)
    requires IsoShaped(iso)
    ensures BucketDate(iso, Some(Month)) == NatToString(YearOf(iso)) + "-" + iso[5..7]
    ensures iso[0] != '0' ==> BucketDate(iso, Some(Month)) == iso[..7]
  {
    PadCanonical(iso[5..7]);
    if iso[0] != '0' {
      assert iso[..4][0] == iso[0];
      CanonicalDigits(iso[..4]);
      assert iso[..7] == iso[..4] + "-" + iso[5..7];
    }
  }

  /** `quarter` numbers months 1-3, 4-6, 7-9 and 10-12 as Q1 to Q4. */
  lemma BucketQuarter(iso: string)
    requires IsoShaped(iso) && 1 <= MonthOf(iso) <= 12
    ensures var q := QuarterOf(MonthOf(iso));
      && 1 <= q <= 4 && 3 * (q - 1) < MonthOf(iso) <= 3 * q
      && BucketDate(iso, Some(Quarter)) == NatToString(YearOf(iso)) + "-Q" + [DigitChar(q)]
  {
  }

  function YearLength(y: int): nat
  {
    if LeapYear(y) then 366 else 365
  }

  lemma DaysBeforeDecember(y: int)
    ensures DaysBeforeMonth(y, 12) + DaysInMonth(y, 12) == YearLength(y)
  {
    var f := DaysInMonth(y, 2);
    assert DaysBeforeMonth(y, 3) == 31 + f;
    assert DaysBeforeMonth(y, 5) == 92 + f;
    assert DaysBeforeMonth(y, 7) == 153 + f;
    assert DaysBeforeMonth(y, 9) == 215 + f;
    assert DaysBeforeMonth(y, 11) == 276 + f;
    assert DaysBeforeMonth(y, 12) == 306 + f;
  }

  /** A month ends within its year. */
  lemma {:induction false} MonthEnd(y: int, m: int)
    requires 1 <= m <= 12
    ensures DaysBeforeMonth(y, m) + DaysInMonth(y, m) <= YearLength(y)
    decreases 12 - m
  {
    if m == 12 {
      DaysBeforeDecember(y);
    } else {
      MonthEnd(y, m + 1);
      assert DaysBeforeMonth(y, m + 1) == DaysBeforeMonth(y, m) + DaysInMonth(y, m);
    }
  }

  /** For a day that exists in its month, `week` numbers the day of the year in blocks of
      seven from 1 January: week 1 holds days 1-7, and the last week is 53 at most. */
  lemma BucketWeek(iso: string)
    requires IsoShaped(iso) && 1 <= MonthOf(iso) <= 12
    requires 1 <= DayOf(iso) <= DaysInMonth(UtcYear(YearOf(iso)), MonthOf(iso))
    ensures var doy := DayOfYear(iso);
      && 1 <= doy <= YearLength(UtcYear(YearOf(iso)))
      && var wk := WeekOf(doy);
      && 1 <= wk <= 53 && 7 * (wk - 1) < doy <= 7 * wk
      && BucketDate(iso, Some(Week)) == NatToString(YearOf(iso)) + "-W" + NatToString(wk)
  {
    MonthEnd(UtcYear(YearOf(iso)), MonthOf(iso));
  }
}
