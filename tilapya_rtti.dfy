/**
  `tilapya.rtti`: the relative time parsers of the Real-Time Transit
  Information wrapper, and the schema tables wired to them.  This package
  zeroes the microsecond of every spliced value.
*/
module TilapyaRtti {
  import opened Wrappers
  import opened Exceptions
  import opened Civil
  import opened Strptime
  import opened RelativeTime
  import opened RttiSchemas

  /**
    `parse_leave_time(value, relative_to)`: the full form "%I:%M%p %Y-%m-%d" is
    localized to Vancouver as it stands; otherwise the short form "%I:%M%p" is
    spliced onto the reference and placed tomorrow.  The second parse sits
    outside the `try`, so a string matching neither raises ValueError.  The
    OverflowError `localize` raises on the first and last representable days
    is not a ValueError and escapes the `except`.
  */
  function ParseLeaveTime(value: string, ref: DateTime): Result<DateTime, PyException> {
    match ParseDateForm(value)
    case Some((d, c)) => Localize(d, Time(c.hour, c.minute, 0, 0))
    case None =>
      match ParseTimeForm(value)
      case Some(c) => Tomorrow(ref, Time(c.hour, c.minute, 0, 0))
      case None => Failure(ValueError)
  }

  /** `parse_last_update(value, relative_to)`: "%I:%M:%S %p", the most recent such moment. */
  function ParseLastUpdate(value: string, ref: DateTime): Result<DateTime, PyException> {
    match ParseSecondsForm(value)
    case Some(c) => MostRecent(ref, Time(c.hour, c.minute, c.second, 0))
    case None => Failure(ValueError)
  }

  const TilapyaParsers := Parsers(ParseLeaveTime, ParseLastUpdate)

  /**
    Any string in the full form, in every spelling strptime accepts, gives its
    own date, hour and minute, with seconds and microseconds 0, whatever the
    reference; localizing it raises OverflowError exactly on the first and the
    last representable day.
  */
  lemma FullFormIgnoresReference(value: string, d: Date, c: Clock, ref: DateTime)
    requires ParseDateForm(value) == Some((d, c))
    ensures var r := ParseLeaveTime(value, ref);
      && (r.Failure? <==> d == Date(MinYear, 1, 1) || d == Date(MaxYear, 12, 31))
      && (r.Failure? ==> r.error == OverflowError)
      && (r.Success? ==> r.value == DateTime(d, Time(c.hour, c.minute, 0, 0), Vancouver))
  {
    LocalizeFailsOnlyAtTheEnds(d, Time(c.hour, c.minute, 0, 0));
  }

  /**
    Any string in the short form, in every spelling strptime accepts (such as
    "09:05pm", "9:5PM" or "12:09am"), lands on the day after the reference,
    with the string's hour and minute and zero seconds and microseconds, even
    when that time is still ahead today; it fails only on the last
    representable day, with OverflowError.
  */
  lemma ShortFormIsTomorrow(value: string, c: Clock, ref: DateTime)
    requires ParseTimeForm(value) == Some(c) && Valid(ref)
    ensures var r := ParseLeaveTime(value, ref);
      && (r.Failure? <==> ref.date == Date(MaxYear, 12, 31))
      && (r.Failure? ==> r.error == OverflowError)
      && (r.Success? ==>
            && Valid(r.value)
            && r.value.date == NextDate(ref.date)
            && Ordinal(r.value.date) == Ordinal(ref.date) + 1
            && r.value.time == Time(c.hour, c.minute, 0, 0)
            && r.value.zone == ref.zone
            && Before(ref, r.value))
  {
    TimeFormIsNotDateForm(value);
    TomorrowIsNextDay(ref, Time(c.hour, c.minute, 0, 0));
  }

  /** Only a string in neither leave-time form raises ValueError. */
  lemma LeaveTimeValueError(value: string, ref: DateTime)
    ensures ParseLeaveTime(value, ref) == Failure(ValueError) <==>
      ParseDateForm(value).None? && ParseTimeForm(value).None?
  {
  }

  /**
    A last-update value has the string's hour, minute and second, microsecond 0
    and the reference's zone, and falls in (reference - 1 day, reference]; it is
    the only such date-time there.  A string not in the form raises ValueError.
  */
  lemma LastUpdateWindow(value: string, ref: DateTime)
    requires Valid(ref)
    ensures ParseSecondsForm(value).None? ==> ParseLastUpdate(value, ref) == Failure(ValueError)
    ensures ParseSecondsForm(value).Some? ==>
      var c := ParseSecondsForm(value).value;
      var r := ParseLastUpdate(value, ref);
      && (r.Failure? ==> r.error == OverflowError && ref.date == Date(MinYear, 1, 1))
      && (r.Success? ==>
            && Valid(r.value)
            && r.value.time == Time(c.hour, c.minute, c.second, 0)
            && r.value.zone == ref.zone
            && InWindow(ref, r.value))
      && forall x | Valid(x) && x.time == Time(c.hour, c.minute, c.second, 0) && x.zone == ref.zone && InWindow(ref, x) ::
           r == Success(x)
  {
    if ParseSecondsForm(value).Some? {
      var c := ParseSecondsForm(value).value;
      var t := Time(c.hour, c.minute, c.second, 0);
      MostRecentInWindow(ref, t);
      forall x | Valid(x) && x.time == t && x.zone == ref.zone && InWindow(ref, x) ensures ParseLastUpdate(value, ref) == Success(x) {
        MostRecentIsUnique(ref, t, x);
      }
    }
  }

  function At(y: int, mo: int, d: int, h: int, mi: int, s: int): DateTime {
    DateTime(Date(y, mo, d), Time(h, mi, s, 0), Vancouver)
  }

  /** Test fixture: "9:59pm 2018-02-13" measured from 2018-02-13 21:30 is 2018-02-13 21:59. */
  lemma FullFormFixture()
    ensures ParseLeaveTime("9:59pm 2018-02-13", At(2018, 2, 13, 21, 30, 0)) == Success(At(2018, 2, 13, 21, 59, 0))
  {
    RenderedDateTime();
    ParseDateFormRoundTrip(Date(2018, 2, 13), Clock(21, 59, 0));
    FullFormIgnoresReference("9:59pm 2018-02-13", Date(2018, 2, 13), Clock(21, 59, 0), At(2018, 2, 13, 21, 30, 0));
  }

  /** Test fixtures: "12:09am" and "10:00pm" measured from 2018-02-13 23:00 are both on 2018-02-14. */
  lemma ShortFormFixtures()
    ensures ParseLeaveTime("12:09am", At(2018, 2, 13, 23, 0, 0)) == Success(At(2018, 2, 14, 0, 9, 0))
    ensures ParseLeaveTime("10:00pm", At(2018, 2, 13, 23, 0, 0)) == Success(At(2018, 2, 14, 22, 0, 0))
  {
    RenderedTimes();
    ParseTimeFormRoundTrip(Clock(0, 9, 0));
    ParseTimeFormRoundTrip(Clock(22, 0, 0));
    ShortFormIsTomorrow("12:09am", Clock(0, 9, 0), At(2018, 2, 13, 23, 0, 0));
    ShortFormIsTomorrow("10:00pm", Clock(22, 0, 0), At(2018, 2, 13, 23, 0, 0));
  }

  /** Test fixture: "08:53:10 pm" measured from 21:00 the same evening is that evening. */
  lemma LastUpdateEveningFixture()
    ensures ParseLastUpdate("08:53:10 pm", At(2018, 1, 1, 21, 0, 0)) == Success(At(2018, 1, 1, 20, 53, 10))
  {
    SecondsFormFixtures();
  }

  /** Test fixture: "08:53:10 pm" measured from just after midnight is the previous evening. */
  lemma LastUpdateAfterMidnightFixture()
    ensures ParseLastUpdate("08:53:10 pm", At(2018, 1, 2, 0, 30, 0)) == Success(At(2018, 1, 1, 20, 53, 10))
  {
    SecondsFormFixtures();
  }

  /** Test fixture: "01:00:00 am" just after midnight is the previous day. */
  lemma LastUpdateMorningFixture()
    ensures ParseLastUpdate("01:00:00 am", At(2018, 1, 2, 0, 30, 0)) == Success(At(2018, 1, 1, 1, 0, 0))
  {
    SecondsFormFixtures();
  }
}
