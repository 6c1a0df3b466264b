/** Proleptic Gregorian calendar dates, as Python's `datetime.date` accepts them. */
module Calendar {
  import opened Wrappers

  datatype Date = Date(year: int, month: int, day: int)

  predicate IsLeapYear(y: int) {
    y % 4 == 0 && (y % 100 != 0 || y % 400 == 0)
  }

  function DaysInMonth(y: int, m: int): (n: int)
    requires 1 <= m <= 12
    ensures 28 <= n <= 31
  {
    if m == 2 then (if IsLeapYear(y) then 29 else 28)
    else if m == 4 || m == 6 || m == 9 || m == 11 then 30
    else 31
  }

  /** The values `date(year, month, day)` accepts without raising ValueError
      (MINYEAR is 1 and MAXYEAR is 9999). */
  predicate ValidDate(d: Date) {
    1 <= d.year <= 9999 && 1 <= d.month <= 12 && 1 <= d.day <= DaysInMonth(d.year, d.month)
  }

  /** `date(y, m, d)`, with the ValueError for impossible values as `None`. */
  function MakeDate(y: int, m: int, d: int): (r: Option<Date>)
    ensures r.Some? <==> ValidDate(Date(y, m, d))
    ensures r.Some? ==> r.value == Date(y, m, d)
  {
    if ValidDate(Date(y, m, d)) then Some(Date(y, m, d)) else None
  }

  /** The two-digit-year rule shared by the parser and the date editor:
      a year below 100 is taken to be in the 2000s. */
  function ExpandYear(y: int): (r: int)
    ensures y < 100 ==> r == y + 2000
    ensures y >= 100 ==> r == y
  {
    if y < 100 then y + 2000 else y
  }
}
