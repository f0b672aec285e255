/** `CalendarDay`: one day of a calendar and the items shown on it. */
module CalendarDayModel {

  import opened Wrappers
  import opened Dates
  import opened ObjectStorage

  /** An item shown in a calendar (`CalendarItemInterface`); the calendar only uses its identity. */
  class CalendarItem {
    constructor () {}
  }

  /** The `$items` argument of the factories: `array|\Iterator|null`, handed on untouched. */
  type ItemSource = Option<seq<CalendarItem>>

  class CalendarDay {
    var date: Option<DateTime>
    var items: Storage<CalendarItem>
    var isCurrent: bool

    /** A day without items, not current, dated `date` unless that is null. */
    constructor (date: Option<DateTime>)
      ensures this.date == date
      ensures items == [] && !isCurrent
      ensures !GetHasItems()
    {
      this.date := None;
      if date.Some? {
        this.date := date;
      }
      items := [];
      isCurrent := false;
    }

    function GetDate(): Option<DateTime>
      reads this
    {
      date
    }

    method SetDate(dateTime: DateTime)
      modifies this
      ensures date == Some(dateTime)
      ensures items == old(items) && isCurrent == old(isCurrent)
    {
      date := Some(dateTime);
    }

    /** The day of the month as two digits (format letter 'd'); null when there is no date. */
    function GetDay(): (r: Option<string>)
      reads this
      ensures r.None? <==> date.None?
      ensures r.Some? ==> |r.value| == 2 && DecimalValue(r.value) == date.value.day
      ensures r.Some? ==> forall i :: 0 <= i < |r.value| ==> '0' <= r.value[i] <= '9'
      ensures r.Some? ==> 1 <= DecimalValue(r.value) <= DaysInMonth(date.value.year, date.value.month)
    {
      if date.Some? then
        FormatTwoDigitsValue(date.value.day);
        Some(FormatTwoDigits(date.value.day))
      else
        None
    }

    /** `(int)date('w', $date->getTimestamp())`: 0 for Sunday to 6 for Saturday; null when there is no date. */
    function GetDayOfWeek(): (r: Option<int>)
      reads this
      ensures r.None? <==> date.None?
      ensures r.Some? ==> 0 <= r.value <= 6 && r.value == Weekday(date.value)
    {
      if date.Some? then
        WeekdayOfTimestampIsWeekday(date.value);
        Some(WeekdayOfTimestamp(Timestamp(date.value)))
      else
        None
    }

    function IsCurrent(): bool
      reads this
    {
      isCurrent
    }

    method SetCurrent(isCurrent: bool)
      modifies this
      ensures this.isCurrent == isCurrent
      ensures date == old(date) && items == old(items)
    {
      this.isCurrent := isCurrent;
    }

    function GetItems(): Storage<CalendarItem>
      reads this
    {
      items
    }

    method SetItems(items: Storage<CalendarItem>)
      modifies this
      ensures this.items == items
      ensures date == old(date) && isCurrent == old(isCurrent)
    {
      this.items := items;
    }

    method AddItem(item: CalendarItem)
      modifies this
      ensures items == Attach(old(items), item)
      ensures item in items && forall x :: x in old(items) ==> x in items
      ensures GetHasItems()
      ensures date == old(date) && isCurrent == old(isCurrent)
    {
      items := Attach(items, item);
    }

    method RemoveItem(item: CalendarItem)
      modifies this
      ensures items == Detach(old(items), item)
      ensures item !in items
      ensures GetHasItems() <==> |old(items)| > (if item in old(items) then 1 else 0)
      ensures forall x :: x in old(items) && x != item ==> x in items
      ensures date == old(date) && isCurrent == old(isCurrent)
    {
      items := Detach(items, item);
    }

    /** The month number without leading zero (the default format 'n'); null when there is no date. */
    function GetMonth(): (r: Option<string>)
      reads this
      ensures r.None? <==> date.None?
      ensures r.Some? ==> 1 <= |r.value| <= 2 && DecimalValue(r.value) == date.value.month
      ensures r.Some? ==> forall i :: 0 <= i < |r.value| ==> '0' <= r.value[i] <= '9'
      ensures r.Some? ==> r.value[0] != '0' && (|r.value| == 1 <==> date.value.month < 10)
      ensures r.Some? ==> 1 <= DecimalValue(r.value) <= 12
    {
      if date.Some? then
        FormatDecimalValue(date.value.month);
        Some(FormatDecimal(date.value.month))
      else
        None
    }

    /** Whether at least one item is attached. */
    function GetHasItems(): bool
      reads this
    {
      |items| > 0
    }
  }
}
