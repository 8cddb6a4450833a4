/**
 * The configuration records of app/core/models.py that the pay engines
 * read: shift types, OB rules, on-call rules and tax brackets.
 *
 * A rule's "HH:MM" strings are kept as (hour, minute) pairs, the result of
 * the `split(":")` that the engines apply; the literal "24:00" is
 * `Clock(24, 0)`. Rule date strings are kept as dates: the generated rules
 * write them with `isoformat()`, which is one-to-one.
 */
module Models {
  import opened Wrappers
  import opened Calendar

  /** The number of rotation positions, MAX_PERSONS; the positions are 1 through it (app/core/constants.py). */
  const MaxPersons: int := 10

  datatype Clock = Clock(hour: int, minute: int)

  /** The "24:00" end time: the following midnight. */
  const EndOfDay: Clock := Clock(24, 0)

  /** "00:00". */
  const Midnight: Clock := Clock(0, 0)

  /** A time that `datetime.time(hour, minute)` accepts. */
  predicate ValidClock(c: Clock)
  {
    0 <= c.hour <= 23 && 0 <= c.minute <= 59
  }

  function ClockSeconds(c: Clock): int
  {
    c.hour * 3600 + c.minute * 60
  }

  datatype ShiftType = ShiftType(code: string, name: string, startTime: string, endTime: string, color: string)

  /** An OB rule; `days` holds weekday numbers (0 is Monday); an absent list is `[]`. */
  datatype ObRule = ObRule(
    code: string,
    name: string,
    days: seq<int>,
    specificDates: seq<Date>,
    startTime: Clock,
    endTime: Clock,
    rate: int)

  /**
   * An on-call rule; `rate` is the salary divisor, `priority` larger wins.
   * `name` is the rule's `label` (a reserved word in Dafny).
   */
  datatype OnCallRule = OnCallRule(
    code: string,
    name: string,
    days: seq<int>,
    specificDates: seq<Date>,
    startTime: Clock,
    endTime: Clock,
    rate: int,
    priority: int,
    spansToNextDay: bool)

  /** A tax-table row: income up to `lonTill` (None: no upper bound) pays `prelSkatt`. */
  datatype TaxBracket = TaxBracket(lonFran: real, lonTill: Option<real>, prelSkatt: real)
}
