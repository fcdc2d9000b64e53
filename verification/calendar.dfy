/**
 The calendar values the controllers compare: a `LocalDate` and the
 `LocalDateTime` of an order's timestamp.
 */
module Calendar {

  datatype Date = Date(year: int, month: int, day: int)

  datatype DateTime = DateTime(date: Date, hour: int, minute: int, second: int, nano: int)

  /** `toLocalDate()`: the calendar day of a timestamp. */
  function ToLocalDate(t: DateTime): Date {
    t.date
  }
}
