/** `CalendarMonth`: the weeks of one month and the date the month was built from. */
module CalendarMonthModel {

  import opened Wrappers
  import opened Dates
  import opened ObjectStorage
  import opened CalendarWeekModel

  class CalendarMonth {
    var weeks: Storage<CalendarWeek>
    var startDate: Option<DateTime>

    /** A month without weeks and without start date. */
    constructor ()
      ensures weeks == [] && startDate == None
    {
      weeks := [];
      startDate := None;
    }

    function GetWeeks(): Storage<CalendarWeek>
      reads this
    {
      weeks
    }

    method SetWeeks(weeks: Storage<CalendarWeek>)
      modifies this
      ensures this.weeks == weeks && startDate == old(startDate)
    {
      this.weeks := weeks;
    }

    method AddWeek(week: CalendarWeek)
      modifies this
      ensures weeks == Attach(old(weeks), week)
      ensures week in weeks && forall w :: w in old(weeks) ==> w in weeks
      ensures startDate == old(startDate)
    {
      weeks := Attach(weeks, week);
    }

    method RemoveWeek(week: CalendarWeek)
      modifies this
      ensures weeks == Detach(old(weeks), week)
      ensures week !in weeks
      ensures forall w :: w in old(weeks) && w != week ==> w in weeks
      ensures startDate == old(startDate)
    {
      weeks := Detach(weeks, week);
    }

    function GetStartDate(): Option<DateTime>
      reads this
    {
      startDate
    }

    /** The argument is untyped in the source, so null is accepted. */
    method SetStartDate(startDate: Option<DateTime>)
      modifies this
      ensures this.startDate == startDate && weeks == old(weeks)
    {
      this.startDate := startDate;
    }

    /** The month number of the start date (the default format 'n'); null when there is no start date. */
    function GetMonth(): (r: Option<string>)
      reads this
      ensures r.None? <==> startDate.None?
      ensures r.Some? ==> 1 <= |r.value| <= 2 && DecimalValue(r.value) == startDate.value.month
      ensures r.Some? ==> forall i :: 0 <= i < |r.value| ==> '0' <= r.value[i] <= '9'
      ensures r.Some? ==> r.value[0] != '0' && (|r.value| == 1 <==> startDate.value.month < 10)
      ensures r.Some? ==> 1 <= DecimalValue(r.value) <= 12
    {
      if startDate.Some? then
        FormatDecimalValue(startDate.value.month);
        Some(FormatDecimal(startDate.value.month))
      else
        None
    }
  }
}
