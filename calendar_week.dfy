/** `CalendarWeek`: the days of one week, in the order they were added. */
module CalendarWeekModel {

  import opened ObjectStorage
  import opened CalendarDayModel

  class CalendarWeek {
    var days: Storage<CalendarDay>

    constructor ()
      ensures days == []
    {
      days := [];
    }

    /** Attaches a day, as the month attaches weeks. */
    method AddDay(day: CalendarDay)
      modifies this
      ensures days == Attach(old(days), day)
    {
      days := Attach(days, day);
    }
  }
}
