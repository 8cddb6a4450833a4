/**
 * Request-parameter checks of app/core/validators.py. An HTTP error is a
 * value carrying its status code and detail text.
 */
module Validators {
  import opened Wrappers
  import opened Calendar
  import opened Models

  datatype HttpError = HttpError(status: int, detail: string)

  const NotFound: int := 404
  const BadRequest: int := 400

  /** `validate_person_id`: the id itself when it names a position, otherwise a 404. */
  function ValidatePersonId(personId: int): (r: Result<int, HttpError>)
    ensures r.Ok? <==> 1 <= personId <= MaxPersons
    ensures r.Ok? ==> r.value == personId
    ensures r.Err? ==> r.error.status == NotFound
  {
    if !(1 <= personId <= 10) then Err(HttpError(NotFound, "Person not found"))
    else Ok(personId)
  }

  /** The triples `datetime.date(year, month, day)` accepts: a valid calendar date in years 1 through 9999. */
  predicate ValidDate(year: int, month: int, day: int)
  {
    1 <= year <= 9999 && IsDate(year, month, day)
  }

  /** `datetime.date(year, month, day)`, with `None` for its `ValueError`. */
  function MakeDate(year: int, month: int, day: int): (r: Option<Date>)
    ensures r.Some? <==> ValidDate(year, month, day)
    ensures r.Some? ==> ToYmd(r.value) == Ymd(year, month, day)
  {
    if ValidDate(year, month, day) then
      YmdRoundTrip(year, month, day);
      Some(DateOf(year, month, day))
    else None
  }

  /**
   * `validate_date_params`: a full date is built and returned; a year and
   * month are checked through day 1 and give `None`; a year alone gives
   * `None`; a day without a month, or a date that does not exist, is a 400.
   */
  function ValidateDateParams(year: int, month: Option<int>, day: Option<int>): (r: Result<Option<Date>, HttpError>)
    ensures month.Some? && day.Some? ==>
      (r.Ok? <==> ValidDate(year, month.value, day.value)) &&
      (r.Ok? ==> r.value.Some? && ToYmd(r.value.value) == Ymd(year, month.value, day.value))
    ensures month.Some? && day.None? ==> (r.Ok? <==> ValidDate(year, month.value, 1)) && (r.Ok? ==> r.value.None?)
    ensures month.None? && day.None? ==> r == Ok(None)
    ensures month.None? && day.Some? ==> r.Err?
    ensures r.Err? ==> r.error.status == BadRequest
  {
    if month.Some? && day.Some? then
      match MakeDate(year, month.value, day.value)
      case Some(d) => Ok(Some(d))
      case None => Err(HttpError(BadRequest, "Invalid date"))
    else if month.Some? && day.None? then
      if MakeDate(year, month.value, 1).Some? then Ok(None)
      else Err(HttpError(BadRequest, "Invalid date"))
    else if month.None? && day.None? then Ok(None)
    else Err(HttpError(BadRequest, "Invalid date parameter combination"))
  }

  /**
   * A year and month that pass on their own pass with any day of that month,
   * and every such day is returned as itself.
   */
  lemma MonthAcceptsItsDays(year: int, month: int, day: int)
    requires ValidateDateParams(year, Some(month), None).Ok?
    requires 1 <= day <= DaysInMonth(year, month)
    ensures ValidateDateParams(year, Some(month), Some(day)).Ok?
    ensures ValidateDateParams(year, Some(month), Some(day)).value == Some(DateOf(year, month, day))
  {
    var d := ValidateDateParams(year, Some(month), Some(day)).value.value;
    assert ToYmd(d) == Ymd(year, month, day);
  }
}
