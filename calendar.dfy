/**
 * Calendar dates and timestamps as pandas' datetime column holds them,
 * ordered chronologically, and the English month names that
 * `Series.dt.month_name()` produces.
 */
module Calendar {

  type Month = m: int | 1 <= m <= 12 witness 1
  type Day = d: int | 1 <= d <= 31 witness 1
  type SecondOfDay = s: int | 0 <= s < 86400

  datatype Date = Date(year: nat, month: Month, day: Day)

  /** A parsed timestamp: its calendar date and its time of day. */
  datatype Timestamp = Timestamp(date: Date, second: SecondOfDay)

  /** Chronological order on calendar dates (lexicographic on year, month, day). */
  predicate DateLe(a: Date, b: Date) {
    a.year < b.year
    || (a.year == b.year && (a.month < b.month || (a.month == b.month && a.day <= b.day)))
  }

  /** Chronological order on timestamps: by date, then by time of day. */
  predicate StampLe(a: Timestamp, b: Timestamp) {
    if a.date == b.date then a.second <= b.second else DateLe(a.date, b.date)
  }

  /** Both orders are total orders. */
  lemma DateLeTotalOrder(a: Date, b: Date, c: Date)
    ensures DateLe(a, a)
    ensures DateLe(a, b) && DateLe(b, a) ==> a == b
    ensures DateLe(a, b) && DateLe(b, c) ==> DateLe(a, c)
    ensures DateLe(a, b) || DateLe(b, a)
  {
  }

  lemma StampLeTotalOrder(a: Timestamp, b: Timestamp, c: Timestamp)
    ensures StampLe(a, a)
    ensures StampLe(a, b) && StampLe(b, a) ==> a == b
    ensures StampLe(a, b) && StampLe(b, c) ==> StampLe(a, c)
    ensures StampLe(a, b) || StampLe(b, a)
  {
  }

  /** Ordering timestamps orders their dates: taking `.date()` is monotone. */
  lemma StampLeDate(a: Timestamp, b: Timestamp)
    ensures StampLe(a, b) ==> DateLe(a.date, b.date)
  {
  }

  const MonthNames: seq<string> := [
    "January", "February", "March", "April", "May", "June",
    "July", "August", "September", "October", "November", "December"
  ]

  /** The full English name of a month. */
  function MonthName(m: Month): (name: string)
    ensures name in MonthNames && |name| > 0
  {
    MonthNames[m - 1]
  }

  /** Different months have different names, so the name determines the month. */
  lemma MonthNameInjective(m: Month, n: Month)
    ensures MonthName(m) == MonthName(n) ==> m == n
  {
  }
}
