/** Gregorian calendar facts used by `calendar.monthrange` and by
    `pd.to_datetime(..., format='%Y%m%d')`. */
module Calendar {
  import opened Wrappers

  /** Python's `calendar.isleap`; `%` here agrees with Python's for the positive divisors used. */
  predicate IsLeapYear(year: int) {
    year % 4 == 0 && (year % 100 != 0 || year % 400 == 0)
  }

  function DaysInMonth(year: int, month: int): (days: int)
    requires 1 <= month <= 12
    ensures 28 <= days <= 31
    ensures month == 2 ==> (days == 29 <==> IsLeapYear(year)) && days <= 29
    ensures month != 2 ==> 30 <= days
    ensures days == 31 <==> month in {1, 3, 5, 7, 8, 10, 12}
  {
    if month == 2 then (if IsLeapYear(year) then 29 else 28)
    else if month in {4, 6, 9, 11} then 30
    else 31
  }

  /** `calendar.monthrange(year, month)[1]`: the number of days in the month, or
      IllegalMonthError when the month is outside 1..12. */
  function MonthRangeDays(year: int, month: int): (r: Result<int>)
    ensures r.Failure? <==> !(1 <= month <= 12)
    ensures r.Failure? ==> r.error == IllegalMonthError(month)
    ensures r.Success? ==> r.value == DaysInMonth(year, month) && 28 <= r.value <= 31
  {
    if 1 <= month <= 12 then Success(DaysInMonth(year, month)) else Failure(IllegalMonthError(month))
  }

  datatype Date = Date(year: int, month: int, day: int)

  predicate ValidDate(d: Date) {
    1 <= d.month <= 12 && 1 <= d.day <= DaysInMonth(d.year, d.month)
  }

  /** The 8-digit `YYYYMMDD` integer a date is written as. */
  function DateKey(d: Date): int {
    d.year * 10000 + d.month * 100 + d.day
  }

  /** The first and last days a pandas nanosecond `Timestamp` can hold:
      1677-09-22 and 2262-04-11 (the exact limits fall within the day before
      and the day itself). */
  const TimestampMinKey := 16770922
  const TimestampMaxKey := 22620411

  /** `pd.to_datetime(key, format='%Y%m%d')` for an integer key: the digits are
      read as year, month and day; a key that does not name a real day raises
      ValueError, and so does a day outside the `Timestamp` range
      (OutOfBoundsDatetime, a ValueError). */
  function ParsePeriodKey(key: int): (r: Result<Date>)
    ensures r.Success? ==> ValidDate(r.value) && DateKey(r.value) == key
    ensures r.Success? ==> 1000 <= r.value.year <= 9999
    ensures r.Success? ==> TimestampMinKey <= key <= TimestampMaxKey
    ensures r.Failure? ==> r.error.ValueError?
  {
    if 10000000 <= key <= 99999999 then
      var year, month, day := key / 10000, key / 100 % 100, key % 100;
      if 1 <= month <= 12 && 1 <= day <= DaysInMonth(year, month) then
        assert key == year * 10000 + month * 100 + day;
        if TimestampMinKey <= key <= TimestampMaxKey then Success(Date(year, month, day))
        else Failure(ValueError("Out of bounds nanosecond timestamp"))
      else
        Failure(ValueError("time data does not match format '%Y%m%d'"))
    else
      Failure(ValueError("time data does not match format '%Y%m%d'"))
  }

  /** Every valid date within the `Timestamp` range is parsed back from its key. */
  lemma ParsePeriodKeyRoundTrip(d: Date)
    requires ValidDate(d) && TimestampMinKey <= DateKey(d) <= TimestampMaxKey
    ensures ParsePeriodKey(DateKey(d)) == Success(d)
  {
    var key := DateKey(d);
    var low := d.month * 100 + d.day;
    assert 0 <= low < 10000;
    assert key / 10000 == d.year;
    assert key % 10000 == low;
    assert key / 100 == d.year * 100 + d.month;
    assert key / 100 % 100 == d.month;
    assert key % 100 == d.day;
  }
}
