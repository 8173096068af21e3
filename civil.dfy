/**
  Civil (wall-clock) date-time arithmetic, as Python's `datetime` performs it.

  `datetime.replace` keeps the tzinfo object of the value it is applied to, and
  `+`/`-` of a `timedelta` on an aware value is naive arithmetic that keeps the
  same tzinfo as well.  Two aware values with the same tzinfo object compare by
  their naive fields.  So every value the parsers build shares the zone tag of
  the reference and is compared field by field: a zone is only a tag here.
*/
module Civil {
  import opened Wrappers

  const MinYear := 1     // datetime.MINYEAR
  const MaxYear := 9999  // datetime.MAXYEAR

  /** An opaque time-zone tag (a pytz tzinfo). */
  datatype Zone = Zone(name: string)

  /** TransLink's local zone. */
  const Vancouver := Zone("America/Vancouver")

  datatype Date = Date(year: int, month: int, day: int)
  datatype Time = Time(hour: int, minute: int, second: int, micro: int)
  datatype DateTime = DateTime(date: Date, time: Time, zone: Zone)

  predicate IsLeapYear(y: int) {
    y % 4 == 0 && (y % 100 != 0 || y % 400 == 0)
  }

  function DaysInMonth(y: int, m: int): int {
    if m == 2 then (if IsLeapYear(y) then 29 else 28)
    else if m == 4 || m == 6 || m == 9 || m == 11 then 30
    else 31
  }

  predicate ValidDate(d: Date) {
    && MinYear <= d.year <= MaxYear
    && 1 <= d.month <= 12
    && 1 <= d.day <= DaysInMonth(d.year, d.month)
  }

  predicate ValidTime(t: Time) {
    && 0 <= t.hour < 24
    && 0 <= t.minute < 60
    && 0 <= t.second < 60
    && 0 <= t.micro < 1000000
  }

  /** Every Python datetime object satisfies this. */
  predicate Valid(dt: DateTime) {
    ValidDate(dt.date) && ValidTime(dt.time)
  }

  /** The calendar day after `d` (no year bound applied). */
  function NextDate(d: Date): Date {
    if d.day < DaysInMonth(d.year, d.month) then d.(day := d.day + 1)
    else if d.month < 12 then Date(d.year, d.month + 1, 1)
    else Date(d.year + 1, 1, 1)
  }

  /** The calendar day before `d` (no year bound applied). */
  function PrevDate(d: Date): Date {
    if d.day > 1 then d.(day := d.day - 1)
    else if d.month > 1 then Date(d.year, d.month - 1, DaysInMonth(d.year, d.month - 1))
    else Date(d.year - 1, 12, 31)
  }

  /** `dt + timedelta(days=1)`: `None` is the OverflowError past year 9999. */
  function AddDay(dt: DateTime): Option<DateTime> {
    var n := NextDate(dt.date);
    if n.year > MaxYear then None else Some(dt.(date := n))
  }

  /** `dt - timedelta(days=1)`: `None` is the OverflowError before year 1. */
  function SubDay(dt: DateTime): Option<DateTime> {
    var p := PrevDate(dt.date);
    if p.year < MinYear then None else Some(dt.(date := p))
  }

  /** `dt.replace(hour=, minute=, second=, microsecond=)`. */
  function Splice(dt: DateTime, t: Time): DateTime {
    dt.(time := t)
  }

  predicate DateBefore(a: Date, b: Date) {
    || a.year < b.year
    || (a.year == b.year && a.month < b.month)
    || (a.year == b.year && a.month == b.month && a.day < b.day)
  }

  predicate TimeBefore(a: Time, b: Time) {
    || a.hour < b.hour
    || (a.hour == b.hour && a.minute < b.minute)
    || (a.hour == b.hour && a.minute == b.minute && a.second < b.second)
    || (a.hour == b.hour && a.minute == b.minute && a.second == b.second && a.micro < b.micro)
  }

  /** `a < b` for two datetimes sharing one tzinfo: naive, field by field. */
  predicate Before(a: DateTime, b: DateTime) {
    DateBefore(a.date, b.date) || (a.date == b.date && TimeBefore(a.time, b.time))
  }

  // ---------------------------------------------------------------------
  // Proleptic Gregorian ordinals, as `date.toordinal` computes them.  This is
  // the reference against which NextDate and PrevDate are checked: Python's
  // `timedelta` arithmetic is `fromordinal(toordinal() +/- days)`.

  function DaysBeforeYear(y: int): int {
    var p := y - 1;
    p * 365 + p / 4 - p / 100 + p / 400
  }

  function DaysBeforeMonth(y: int, m: int): int
    requires 1 <= m <= 12
  {
    [0, 31, 59, 90, 120, 151, 181, 212, 243, 273, 304, 334][m - 1]
      + (if m > 2 && IsLeapYear(y) then 1 else 0)
  }

  function Ordinal(d: Date): int
    requires 1 <= d.month <= 12
  {
    DaysBeforeYear(d.year) + DaysBeforeMonth(d.year, d.month) + d.day
  }

  lemma DaysBeforeMonthStep(y: int, m: int)
    requires 1 <= m < 12
    ensures DaysBeforeMonth(y, m + 1) == DaysBeforeMonth(y, m) + DaysInMonth(y, m)
  {
  }

  lemma DaysBeforeYearStep(y: int)
    ensures DaysBeforeYear(y + 1) == DaysBeforeYear(y) + (if IsLeapYear(y) then 366 else 365)
  {
    DivisionStep4(y);
    DivisionStep100(y);
    DivisionStep400(y);
  }

  lemma DivisionStep4(y: int)
    ensures y / 4 == (y - 1) / 4 + (if y % 4 == 0 then 1 else 0)
  {
  }

  lemma DivisionStep100(y: int)
    ensures y / 100 == (y - 1) / 100 + (if y % 100 == 0 then 1 else 0)
    ensures y % 100 == 0 ==> y % 4 == 0
  {
  }

  lemma DivisionStep400(y: int)
    ensures y / 400 == (y - 1) / 400 + (if y % 400 == 0 then 1 else 0)
    ensures y % 400 == 0 ==> y % 100 == 0 && y % 4 == 0
  {
  }

  /** NextDate stays a valid date while the year bound allows, and is one ordinal later. */
  lemma NextDateOrdinal(d: Date)
    requires ValidDate(d)
    ensures var n := NextDate(d);
      && (n.year <= MaxYear ==> ValidDate(n))
      && 1 <= n.month <= 12
      && Ordinal(n) == Ordinal(d) + 1
      && DateBefore(d, n)
  {
    if d.day < DaysInMonth(d.year, d.month) {
    } else if d.month < 12 {
      DaysBeforeMonthStep(d.year, d.month);
    } else {
      DaysBeforeYearStep(d.year);
    }
  }

  /** PrevDate stays a valid date while the year bound allows, and is one ordinal earlier. */
  lemma PrevDateOrdinal(d: Date)
    requires ValidDate(d)
    ensures var p := PrevDate(d);
      && (p.year >= MinYear ==> ValidDate(p))
      && 1 <= p.month <= 12
      && Ordinal(p) + 1 == Ordinal(d)
      && DateBefore(p, d)
  {
    if d.day > 1 {
    } else if d.month > 1 {
      DaysBeforeMonthStep(d.year, d.month - 1);
    } else {
      DaysBeforeYearStep(d.year - 1);
    }
  }

  /** Going forward a day and back again, or back and forward, is the identity. */
  lemma NextPrevInverse(d: Date)
    requires ValidDate(d)
    ensures PrevDate(NextDate(d)) == d
    ensures NextDate(PrevDate(d)) == d
  {
  }

  /** No valid date lies strictly between PrevDate(d) and d. */
  lemma NothingBetweenPrevAndDate(d: Date, x: Date)
    requires ValidDate(d) && ValidDate(x)
    ensures !(DateBefore(PrevDate(d), x) && DateBefore(x, d))
  {
  }

  /** The lexicographic order on valid dates is the order of their ordinals. */
  lemma {:induction false} DateBeforeIsOrdinalOrder(a: Date, b: Date)
    requires ValidDate(a) && ValidDate(b)
    ensures DateBefore(a, b) <==> Ordinal(a) < Ordinal(b)
  {
    if a.year < b.year {
      YearDominates(a, b);
    } else if b.year < a.year {
      YearDominates(b, a);
    } else if a.month != b.month {
      var lo, hi := if a.month < b.month then a else b, if a.month < b.month then b else a;
      MonthDominates(lo, hi);
    }
  }

  lemma DaysBeforeMonthBounds(y: int, m: int)
    requires 1 <= m <= 12
    ensures DaysBeforeMonth(y, m) + DaysInMonth(y, m) <= (if IsLeapYear(y) then 366 else 365)
  {
  }

  lemma {:induction false} DaysBeforeMonthMonotone(y: int, m: int, k: int)
    requires 1 <= m < k <= 12
    ensures DaysBeforeMonth(y, m) + DaysInMonth(y, m) <= DaysBeforeMonth(y, k)
    decreases k - m
  {
    DaysBeforeMonthStep(y, m);
    if m + 1 < k {
      DaysBeforeMonthMonotone(y, m + 1, k);
    }
  }

  lemma MonthDominates(a: Date, b: Date)
    requires ValidDate(a) && ValidDate(b) && a.year == b.year && a.month < b.month
    ensures Ordinal(a) < Ordinal(b)
  {
    DaysBeforeMonthMonotone(a.year, a.month, b.month);
  }

  lemma {:induction false} DaysBeforeYearMonotone(y: int, z: int)
    requires MinYear <= y < z
    ensures DaysBeforeYear(y) + (if IsLeapYear(y) then 366 else 365) <= DaysBeforeYear(z)
    decreases z - y
  {
    DaysBeforeYearStep(y);
    if y + 1 < z {
      DaysBeforeYearStep(y + 1);
      DaysBeforeYearMonotone(y + 1, z);
    }
  }

  lemma YearDominates(a: Date, b: Date)
    requires ValidDate(a) && ValidDate(b) && a.year < b.year
    ensures Ordinal(a) < Ordinal(b)
  {
    DaysBeforeMonthBounds(a.year, a.month);
    DaysBeforeYearMonotone(a.year, b.year);
  }

  /** `Before` is a strict total order on datetimes. */
  lemma BeforeIsStrictTotalOrder(a: DateTime, b: DateTime, c: DateTime)
    ensures !Before(a, a)
    ensures Before(a, b) && Before(b, c) ==> Before(a, c)
    ensures (a.date == b.date && a.time == b.time) || Before(a, b) || Before(b, a)
  {
  }
}
