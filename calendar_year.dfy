/** `CalendarYear`: the months of one year and the date the year was built from. */
module CalendarYearModel {

  import opened Wrappers
  import opened Dates
  import opened ObjectStorage
  import opened CalendarMonthModel

  class CalendarYear {
    var months: Storage<CalendarMonth>
    var startDate: Option<DateTime>

    constructor ()
      ensures months == [] && startDate == None
    {
      months := [];
      startDate := None;
    }

    method SetStartDate(startDate: Option<DateTime>)
      modifies this
      ensures this.startDate == startDate && months == old(months)
    {
      this.startDate := startDate;
    }

    /** Attaches a month, as the month attaches weeks. */
    method AddMonth(month: CalendarMonth)
      modifies this
      ensures months == Attach(old(months), month)
      ensures startDate == old(startDate)
    {
      months := Attach(months, month);
    }
  }
}
