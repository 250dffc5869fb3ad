/**
 * `calculate_retention_days`: the number of days a bucket's lifecycle rule
 * keeps objects, derived from an optional `(expiration_value,
 * expiration_measure)` request and clamped by the project's data retention
 * limit (-1 = unlimited).
 *
 * The calendar step `(today + relativedelta(**{measure: value}) - today).days`
 * is passed in as a function of `(measure, value)`; today's date is fixed
 * inside it. Only the `days` and `weeks` measures have a calendar-free
 * meaning, and `CalendarExact` pins those two down; months and years are left
 * to the calendar.
 */
module RetentionDays {
  import opened Wrappers
  import ReadableRetention

  /** werkzeug's `Forbidden`: the requested retention exceeds the project limit. */
  datatype PolicyError = PolicyExceeded

  /** The project limit value meaning "no ceiling". */
  const Unlimited: int := -1

  /** Day difference between today and today shifted by `value` units of `measure`. */
  type Calendar = (string, int) -> int

  /** The calendar is exact for day and week shifts. */
  ghost predicate CalendarExact(calendar: Calendar)
  {
    forall v :: calendar("days", v) == v && calendar("weeks", v) == 7 * v
  }

  /** Python truthiness of both request fields: present, non-zero, non-empty. */
  predicate SpecGiven(value: Option<int>, measure: Option<string>)
  {
    value.Some? && value.value != 0 && measure.Some? && measure.value != ""
  }

  /**
   * The limit is an `int` here; a project whose limit is `None` together with
   * a given spec makes `calculate_retention_days` raise a `TypeError` at the comparison, which
   * this model does not cover.
   */
  function CalculateRetentionDays(limit: int, value: Option<int>, measure: Option<string>, calendar: Calendar)
    : (r: Result<Option<int>, PolicyError>)
    // no spec: the limit itself, with a falsy limit of 0 becoming None
    ensures !SpecGiven(value, measure) ==> r == Success(if limit == 0 then None else Some(limit))
    // spec given: refused exactly when a finite limit is exceeded ...
    ensures SpecGiven(value, measure) ==>
              (r.Failure? <==> limit != Unlimited && calendar(measure.value, value.value) > limit)
    // ... and otherwise the calendar offset is returned unchanged
    ensures SpecGiven(value, measure) && r.Success? ==> r.value == Some(calendar(measure.value, value.value))
    // the ceiling invariant: a returned day count never exceeds a finite limit
    ensures r.Success? && r.value.Some? && limit != Unlimited ==> r.value.value <= limit
  {
    var days := if limit == 0 then None else Some(limit);
    if SpecGiven(value, measure) then
      var offset := calendar(measure.value, value.value);
      if limit != Unlimited && offset > limit then Failure(PolicyExceeded)
      else Success(Some(offset))
    else
      Success(days)
  }

  /** With an unlimited project, any given spec yields its offset and never raises. */
  lemma UnlimitedNeverRaises(value: int, measure: string, calendar: Calendar)
    requires SpecGiven(Some(value), Some(measure))
    ensures CalculateRetentionDays(Unlimited, Some(value), Some(measure), calendar)
            == Success(Some(calendar(measure, value)))
  {
  }

  /**
   * Day and week requests are exact: `days` gives `value`, `weeks` gives
   * `7 * value`, and they pass exactly when that count is within the limit.
   */
  lemma DaysAndWeeksOffsets(limit: int, value: int, calendar: Calendar)
    requires CalendarExact(calendar)
    requires value != 0
    ensures CalculateRetentionDays(limit, Some(value), Some("days"), calendar)
            == if limit != Unlimited && value > limit then Failure(PolicyExceeded) else Success(Some(value))
    ensures CalculateRetentionDays(limit, Some(value), Some("weeks"), calendar)
            == if limit != Unlimited && 7 * value > limit then Failure(PolicyExceeded) else Success(Some(7 * value))
  {
    assert calendar("days", value) == value;
    assert calendar("weeks", value) == 7 * value;
  }

  /** Negative day or week counts pass every limit that is not itself negative. */
  lemma NegativeOffsetsPass(limit: int, value: int, measure: string, calendar: Calendar)
    requires CalendarExact(calendar)
    requires limit >= Unlimited && value < 0
    requires measure == "days" || measure == "weeks"
    ensures CalculateRetentionDays(limit, Some(value), Some(measure), calendar).Success?
  {
    assert calendar(measure, value) < 0;
  }

  /**
   * A limit of 0 is read two ways: without a spec it becomes "no expiration"
   * (None), with a spec it is a real ceiling that any positive offset exceeds.
   */
  lemma ZeroLimitAsymmetry(value: Option<int>, measure: Option<string>, calendar: Calendar)
    ensures !SpecGiven(value, measure) ==> CalculateRetentionDays(0, value, measure, calendar) == Success(None)
    ensures SpecGiven(value, measure) && calendar(measure.value, value.value) > 0 ==>
              CalculateRetentionDays(0, value, measure, calendar) == Failure(PolicyExceeded)
  {
  }

  /**
   * A label shown for a bucket in days or weeks, submitted back as a request to
   * an unlimited project, reproduces the bucket's day count.
   */
  lemma ReadableDaysWeeksRoundTrip(days: int, calendar: Calendar)
    requires CalendarExact(calendar)
    requires days != 0
    requires ReadableRetention.Readable(days).measure in {ReadableRetention.Weeks, ReadableRetention.Days}
    ensures var l := ReadableRetention.Readable(days);
            CalculateRetentionDays(Unlimited, Some(l.value), Some(ReadableRetention.MeasureName(l.measure)), calendar)
            == Success(Some(days))
  {
    var l := ReadableRetention.Readable(days);
    assert calendar(ReadableRetention.MeasureName(l.measure), l.value) == days;
  }

  /** The worked cases: limit 30 refuses 45 days, no spec returns limit 90, unlimited takes 10000. */
  lemma RetentionExamples(calendar: Calendar)
    requires CalendarExact(calendar)
    ensures CalculateRetentionDays(30, Some(45), Some("days"), calendar) == Failure(PolicyExceeded)
    ensures CalculateRetentionDays(90, None, None, calendar) == Success(Some(90))
    ensures CalculateRetentionDays(Unlimited, Some(10000), Some("days"), calendar) == Success(Some(10000))
  {
    assert calendar("days", 45) == 45;
    assert calendar("days", 10000) == 10000;
  }
}
