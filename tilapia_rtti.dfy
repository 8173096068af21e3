/**
  `tilapia.rtti`, the older package: the same parsers, except that the
  spliced values keep the reference's microsecond (`replace` is not given
  `microsecond=0`).
*/
module TilapiaRtti {
  import opened Wrappers
  import opened Exceptions
  import opened Civil
  import opened Strptime
  import opened RelativeTime
  import opened RttiSchemas
  import Tilapya = TilapyaRtti

  /** `parse_leave_time`: as in `tilapya`, but the short form keeps the reference's microsecond. */
  function ParseLeaveTime(value: string, ref: DateTime): Result<DateTime, PyException> {
    match ParseDateForm(value)
    case Some((d, c)) => Localize(d, Time(c.hour, c.minute, 0, 0))
    case None =>
      match ParseTimeForm(value)
      case Some(c) => Tomorrow(ref, Time(c.hour, c.minute, 0, ref.time.micro))
      case None => Failure(ValueError)
  }

  /** `parse_last_update`: as in `tilapya`, but keeping the reference's microsecond. */
  function ParseLastUpdate(value: string, ref: DateTime): Result<DateTime, PyException> {
    match ParseSecondsForm(value)
    case Some(c) => MostRecent(ref, Time(c.hour, c.minute, c.second, ref.time.micro))
    case None => Failure(ValueError)
  }

  const TilapiaParsers := Parsers(ParseLeaveTime, ParseLastUpdate)

  /**
    Any full-form string is parsed straight from the string with seconds 0, whatever
    the reference, and raises OverflowError exactly on 0001-01-01 and 9999-12-31.
  */
  lemma FullFormIgnoresReference(value: string, d: Date, c: Clock, ref: DateTime)
    requires ParseDateForm(value) == Some((d, c))
    ensures var r := ParseLeaveTime(value, ref);
      && (r.Failure? <==> d == Date(MinYear, 1, 1) || d == Date(MaxYear, 12, 31))
      && (r.Failure? ==> r.error == OverflowError)
      && (r.Success? ==> r.value == DateTime(d, Time(c.hour, c.minute, 0, 0), Vancouver))
  {
    LocalizeFailsOnlyAtTheEnds(d, Time(c.hour, c.minute, 0, 0));
  }

  /**
    Any short-form string lands on the day after the reference with second 0
    and the reference's microsecond; only 9999-12-31 overflows.
  */
  lemma ShortFormKeepsMicrosecond(value: string, c: Clock, ref: DateTime)
    requires ParseTimeForm(value) == Some(c) && Valid(ref)
    ensures var r := ParseLeaveTime(value, ref);
      && (r.Failure? <==> ref.date == Date(MaxYear, 12, 31))
      && (r.Failure? ==> r.error == OverflowError)
      && (r.Success? ==>
            && Valid(r.value)
            && r.value.date == NextDate(ref.date)
            && r.value.time == Time(c.hour, c.minute, 0, ref.time.micro)
            && r.value.zone == ref.zone
            && Before(ref, r.value))
  {
    TimeFormIsNotDateForm(value);
    TomorrowIsNextDay(ref, Time(c.hour, c.minute, 0, ref.time.micro));
  }

  /**
    Last update keeps the reference's microsecond and falls in
    (reference - 1 day, reference], and is the only such date-time there.
  */
  lemma LastUpdateWindow(value: string, ref: DateTime)
    requires Valid(ref)
    ensures ParseSecondsForm(value).None? ==> ParseLastUpdate(value, ref) == Failure(ValueError)
    ensures ParseSecondsForm(value).Some? ==>
      var c := ParseSecondsForm(value).value;
      var t := Time(c.hour, c.minute, c.second, ref.time.micro);
      var r := ParseLastUpdate(value, ref);
      && (r.Failure? ==> r.error == OverflowError && ref.date == Date(MinYear, 1, 1))
      && (r.Success? ==> Valid(r.value) && r.value.time == t && r.value.zone == ref.zone && InWindow(ref, r.value))
      && forall x | Valid(x) && x.time == t && x.zone == ref.zone && InWindow(ref, x) :: r == Success(x)
  {
    if ParseSecondsForm(value).Some? {
      var c := ParseSecondsForm(value).value;
      var t := Time(c.hour, c.minute, c.second, ref.time.micro);
      MostRecentInWindow(ref, t);
      forall x | Valid(x) && x.time == t && x.zone == ref.zone && InWindow(ref, x) ensures ParseLastUpdate(value, ref) == Success(x) {
        MostRecentIsUnique(ref, t, x);
      }
    }
  }

  /** Only a string in neither leave-time form raises ValueError. */
  lemma LeaveTimeValueError(value: string, ref: DateTime)
    ensures ParseLeaveTime(value, ref) == Failure(ValueError) <==>
      ParseDateForm(value).None? && ParseTimeForm(value).None?
  {
  }

  function ZeroMicro(r: Result<DateTime, PyException>): Result<DateTime, PyException> {
    if r.Success? then Success(r.value.(time := r.value.time.(micro := 0))) else r
  }

  /**
    The two packages' leave times agree up to the microsecond: zeroing the
    microsecond of the older package's result gives the newer one's.
  */
  lemma LeaveTimeAgreesUpToMicrosecond(value: string, ref: DateTime)
    ensures ZeroMicro(ParseLeaveTime(value, ref)) == Tilapya.ParseLeaveTime(value, ref)
  {
    if ParseDateForm(value).None? && ParseTimeForm(value).Some? {
      var c := ParseTimeForm(value).value;
      var a := Splice(ref, Time(c.hour, c.minute, 0, ref.time.micro));
      var b := Splice(ref, Time(c.hour, c.minute, 0, 0));
      assert AddDay(a).Some? <==> AddDay(b).Some?;
      if AddDay(a).Some? {
        assert AddDay(a).value.(time := Time(c.hour, c.minute, 0, 0)) == AddDay(b).value;
      }
    }
  }

  /**
    The two packages' last-update values agree up to the microsecond.  Both
    decide "today or yesterday" the same way: with equal hour, minute and
    second, the spliced value is after the reference in neither package.
  */
  lemma LastUpdateAgreesUpToMicrosecond(value: string, ref: DateTime)
    requires Valid(ref)
    ensures ZeroMicro(ParseLastUpdate(value, ref)) == Tilapya.ParseLastUpdate(value, ref)
  {
    if ParseSecondsForm(value).Some? {
      var c := ParseSecondsForm(value).value;
      MostRecentUpToMicrosecond(ref, c.hour, c.minute, c.second);
    }
  }

  lemma MostRecentUpToMicrosecond(ref: DateTime, h: int, m: int, s: int)
    requires Valid(ref)
    ensures ZeroMicro(MostRecent(ref, Time(h, m, s, ref.time.micro))) == MostRecent(ref, Time(h, m, s, 0))
  {
    var a := Splice(ref, Time(h, m, s, ref.time.micro));
    var b := Splice(ref, Time(h, m, s, 0));
    assert Before(ref, a) <==> Before(ref, b);
    if Before(ref, a) {
      assert SubDay(a).Some? <==> SubDay(b).Some?;
      if SubDay(a).Some? {
        assert SubDay(a).value.(time := b.time) == SubDay(b).value;
      }
    }
  }
}
