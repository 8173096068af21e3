/**
  The two ways the parsers place a bare clock reading relative to a reference
  date-time.  Both packages (`tilapya` and the older `tilapia`) use the same
  shifts; they differ only in which microsecond they splice in.

  * Leave times without a date are always "tomorrow": the clock is spliced onto
    the reference and one day is added, even when that clock time is still ahead
    today.
  * Last-update times are the most recent moment with that clock reading: the
    clock is spliced onto the reference, and one day is subtracted only when the
    spliced value is strictly after the reference.
*/
module RelativeTime {
  import opened Wrappers
  import opened Exceptions
  import opened Civil

  /**
    `TRANSLINK_TZ.localize(naive)`: pytz looks the wall time up one day either
    side of it (`dt - timedelta(days=1)`, then `dt + timedelta(days=1)`), so a
    value on the first or the last representable day raises OverflowError.
    Zone offsets are not modelled: the value is tagged with Vancouver.
  */
  function Localize(d: Date, t: Time): Result<DateTime, PyException> {
    var naive := DateTime(d, t, Vancouver);
    if SubDay(naive).None? || AddDay(naive).None? then Failure(OverflowError) else Success(naive)
  }

  /** Localizing fails exactly on 0001-01-01 and 9999-12-31, with OverflowError; otherwise it keeps the wall time. */
  lemma LocalizeFailsOnlyAtTheEnds(d: Date, t: Time)
    requires ValidDate(d)
    ensures Localize(d, t).Failure? <==> d == Date(MinYear, 1, 1) || d == Date(MaxYear, 12, 31)
    ensures Localize(d, t).Failure? ==> Localize(d, t).error == OverflowError
    ensures Localize(d, t).Success? ==> Localize(d, t).value == DateTime(d, t, Vancouver)
  {
  }

  /** `relative_to.replace(...) + timedelta(days=1)`; OverflowError past 9999-12-31. */
  function Tomorrow(ref: DateTime, t: Time): Result<DateTime, PyException> {
    match AddDay(Splice(ref, t))
    case Some(dt) => Success(dt)
    case None => Failure(OverflowError)
  }

  /** `parsed = relative_to.replace(...)`, then `parsed -= timedelta(days=1)` if `parsed > relative_to`. */
  function MostRecent(ref: DateTime, t: Time): Result<DateTime, PyException> {
    var spliced := Splice(ref, t);
    if Before(ref, spliced) then
      match SubDay(spliced)
      case Some(dt) => Success(dt)
      case None => Failure(OverflowError)
    else Success(spliced)
  }

  /** The window (ref - 1 day, ref] in which a last-update value must fall. */
  predicate InWindow(ref: DateTime, x: DateTime) {
    && !Before(ref, x)
    && (SubDay(ref).Some? ==> Before(SubDay(ref).value, x))
  }

  /**
    A dateless leave time lands on the calendar day after the reference, one
    ordinal later, with the spliced clock and the reference's zone, and is
    therefore strictly after the reference; it fails only on the last
    representable day.
  */
  lemma TomorrowIsNextDay(ref: DateTime, t: Time)
    requires Valid(ref) && ValidTime(t)
    ensures Tomorrow(ref, t).Failure? <==> ref.date == Date(MaxYear, 12, 31)
    ensures Tomorrow(ref, t).Failure? ==> Tomorrow(ref, t).error == OverflowError
    ensures Tomorrow(ref, t).Success? ==>
      var r := Tomorrow(ref, t).value;
      && Valid(r)
      && r.date == NextDate(ref.date)
      && Ordinal(r.date) == Ordinal(ref.date) + 1
      && r.time == t && r.zone == ref.zone
      && Before(ref, r)
  {
    NextDateOrdinal(ref.date);
  }

  /** A last-update value always falls in (ref - 1 day, ref], with the spliced clock and the reference's zone. */
  lemma MostRecentInWindow(ref: DateTime, t: Time)
    requires Valid(ref) && ValidTime(t)
    ensures MostRecent(ref, t).Failure? <==> ref.date == Date(MinYear, 1, 1) && Before(ref, Splice(ref, t))
    ensures MostRecent(ref, t).Failure? ==> MostRecent(ref, t).error == OverflowError
    ensures MostRecent(ref, t).Success? ==>
      var r := MostRecent(ref, t).value;
      && Valid(r) && r.time == t && r.zone == ref.zone
      && InWindow(ref, r)
  {
    PrevDateOrdinal(ref.date);
    var spliced := Splice(ref, t);
    if Before(ref, spliced) && SubDay(spliced).Some? {
      var r := SubDay(spliced).value;
      assert r.date == PrevDate(ref.date);
      assert DateBefore(r.date, ref.date);
      DateBeforeIsOrdinalOrder(r.date, ref.date);
      DateBeforeIsOrdinalOrder(ref.date, r.date);
    }
  }

  /**
    The last-update value is the only valid date-time with the spliced clock
    and the reference's zone in the window: any such value is the result.
  */
  lemma MostRecentIsUnique(ref: DateTime, t: Time, x: DateTime)
    requires Valid(ref) && ValidTime(t)
    requires Valid(x) && x.time == t && x.zone == ref.zone && InWindow(ref, x)
    ensures MostRecent(ref, t) == Success(x)
  {
    PrevDateOrdinal(ref.date);
    DateBeforeIsOrdinalOrder(x.date, ref.date);
    DateBeforeIsOrdinalOrder(ref.date, x.date);
    if SubDay(ref).Some? {
      var p := PrevDate(ref.date);
      DateBeforeIsOrdinalOrder(p, x.date);
      DateBeforeIsOrdinalOrder(x.date, p);
      NothingBetweenPrevAndDate(ref.date, x.date);
    }
  }
}
