/**
 * `CalendarWeekFactory`: builds a week of seven consecutive days through a
 * day factory.
 */
module CalendarWeekFactoryModel {

  import opened Wrappers
  import opened Dates
  import opened ObjectStorage
  import opened CalendarDayModel
  import opened CalendarWeekModel

  /** One call of the day factory: its three arguments and the day it returned. */
  datatype DayRequest = DayRequest(date: DateTime, items: ItemSource, current: bool, day: CalendarDay)

  /**
   * The day factory the week factory delegates to. Its source is not part of
   * this model: all the week factory relies on is that it returns a new day.
   * The ghost log records every call.
   */
  class CalendarDayFactory {
    ghost var requests: seq<DayRequest>

    constructor ()
      ensures requests == []
    {
      requests := [];
    }

    method Create(date: DateTime, items: ItemSource, current: bool) returns (day: CalendarDay)
      modifies this
      ensures fresh(day)
      ensures requests == old(requests) + [DayRequest(date, items, current, day)]
    {
      day := new CalendarDay(Some(date));
      day.SetCurrent(current);
      requests := requests + [DayRequest(date, items, current, day)];
    }
  }

  /** Request `r` is the one the week factory makes for day k of a week from `startDate`. */
  ghost predicate IsDayOfWeek(r: DayRequest, startDate: DateTime, currentDate: DateTime, items: ItemSource, k: nat) {
    && r.date == AddDays(startDate, k)
    && r.items == items
    && r.current == (currentDate == r.date)
  }

  /**
   * `requests` are the day-factory calls for the days `days` of a week from
   * `startDate`, in order: call k is for day k and returned `days[k]`.
   */
  ghost predicate WeekRequests(requests: seq<DayRequest>, days: seq<CalendarDay>,
                               startDate: DateTime, currentDate: DateTime, items: ItemSource) {
    && |requests| == |days|
    && forall k :: 0 <= k < |requests| ==>
         IsDayOfWeek(requests[k], startDate, currentDate, items, k) && requests[k].day == days[k]
  }

  /** Appending the request for the next day, and the day it returned, keeps `WeekRequests`. */
  lemma WeekRequestsExtend(requests: seq<DayRequest>, days: seq<CalendarDay>, r: DayRequest,
                           startDate: DateTime, currentDate: DateTime, items: ItemSource)
    requires WeekRequests(requests, days, startDate, currentDate, items)
    requires IsDayOfWeek(r, startDate, currentDate, items, |requests|)
    ensures WeekRequests(requests + [r], days + [r.day], startDate, currentDate, items)
  {
  }

  class CalendarWeekFactory {
    const calendarDayFactory: CalendarDayFactory

    constructor (calendarDayFactory: CalendarDayFactory)
      ensures this.calendarDayFactory == calendarDayFactory
    {
      this.calendarDayFactory := calendarDayFactory;
    }

    /**
     * A new week whose k-th day (k = 0..6) is what the day factory returned
     * for `startDate` plus k days, the unfiltered `items` and the flag telling
     * whether that date is exactly `currentDate`; the day factory is called
     * seven times, in that order, and nothing else changes.
     */
    method Create(startDate: DateTime, currentDate: DateTime, items: ItemSource) returns (week: CalendarWeek)
      modifies calendarDayFactory
      ensures fresh(week)
      ensures |week.days| == 7
      ensures |calendarDayFactory.requests| == |old(calendarDayFactory.requests)| + 7
      ensures calendarDayFactory.requests[..|old(calendarDayFactory.requests)|] == old(calendarDayFactory.requests)
      ensures WeekRequests(calendarDayFactory.requests[|old(calendarDayFactory.requests)|..], week.days,
                           startDate, currentDate, items)
    {
      ghost var before := calendarDayFactory.requests;
      ghost var added: seq<DayRequest> := [];
      week := new CalendarWeek();
      for weekDay := 0 to 7
        invariant fresh(week)
        invariant |week.days| == weekDay
        invariant calendarDayFactory.requests == before + added
        invariant WeekRequests(added, week.days, startDate, currentDate, items)
      {
        var dateOfDay := startDate;
        if weekDay > 0 {
          dateOfDay := AddDays(startDate, weekDay);
        }
        var current := currentDate == dateOfDay;
        ghost var daysBefore := week.days;
        var day := calendarDayFactory.Create(dateOfDay, items, current);
        week.AddDay(day);
        AttachNewAppends(daysBefore, day);
        ghost var r := DayRequest(dateOfDay, items, current, day);
        WeekRequestsExtend(added, daysBefore, r, startDate, currentDate, items);
        added := added + [r];
      }
      assert calendarDayFactory.requests[|before|..] == added;
    }
  }

  /** Two different days of one week are never both current. */
  lemma AtMostOneCurrentDay(requests: seq<DayRequest>, days: seq<CalendarDay>, startDate: DateTime,
                            currentDate: DateTime, items: ItemSource, j: nat, k: nat)
    requires WeekRequests(requests, days, startDate, currentDate, items)
    requires j < |requests| && k < |requests| && j != k
    ensures !(requests[j].current && requests[k].current)
  {
    AddDaysInjective(startDate, j, k);
  }

  /** A current date exactly k days after the start date makes day k, and no other day, current. */
  lemma CurrentDayIsFound(requests: seq<DayRequest>, days: seq<CalendarDay>, startDate: DateTime,
                          items: ItemSource, k: nat)
    requires WeekRequests(requests, days, startDate, AddDays(startDate, k), items)
    ensures forall j :: 0 <= j < |requests| ==> (requests[j].current <==> j == k)
  {
    forall j | 0 <= j < |requests| && j != k
      ensures !requests[j].current
    {
      AddDaysInjective(startDate, j, k);
    }
  }

  /**
   * The current test compares instants, not calendar days: when the current
   * date has another time of day than the start date, no day is current.
   */
  lemma NoCurrentDayAtOtherTimeOfDay(requests: seq<DayRequest>, days: seq<CalendarDay>, startDate: DateTime,
                                     currentDate: DateTime, items: ItemSource)
    requires WeekRequests(requests, days, startDate, currentDate, items)
    requires currentDate.timeOfDay != startDate.timeOfDay
    ensures forall j :: 0 <= j < |requests| ==> !requests[j].current
  {
    forall j | 0 <= j < |requests|
      ensures !requests[j].current
    {
      AddDaysOrdinal(startDate, j);
    }
  }

  /**
   * Day 0 is the start date itself; day k keeps its time of day, lies k days
   * after it and falls on the weekday k places further on.
   */
  lemma DayDates(requests: seq<DayRequest>, days: seq<CalendarDay>, startDate: DateTime,
                 currentDate: DateTime, items: ItemSource, k: nat)
    requires WeekRequests(requests, days, startDate, currentDate, items)
    requires k < |requests|
    ensures k == 0 ==> requests[k].date == startDate
    ensures requests[k].date.timeOfDay == startDate.timeOfDay
    ensures Ordinal(requests[k].date) == Ordinal(startDate) + k
    ensures Timestamp(requests[k].date) == Timestamp(startDate) + SecondsPerDay * k
    ensures Weekday(requests[k].date) == (Weekday(startDate) + k) % 7
  {
    AddDaysOrdinal(startDate, k);
    AddDaysTimestampAndWeekday(startDate, k);
  }

  /** Each day is the calendar day after the one before: strictly later, by 86400 seconds and one weekday. */
  lemma DaysAscending(requests: seq<DayRequest>, days: seq<CalendarDay>, startDate: DateTime,
                      currentDate: DateTime, items: ItemSource, k: nat)
    requires WeekRequests(requests, days, startDate, currentDate, items)
    requires k + 1 < |requests|
    ensures requests[k + 1].date == NextDay(requests[k].date)
    ensures Before(requests[k].date, requests[k + 1].date)
    ensures Timestamp(requests[k + 1].date) == Timestamp(requests[k].date) + SecondsPerDay
    ensures Weekday(requests[k + 1].date) == (Weekday(requests[k].date) + 1) % 7
  {
    AddDaysTimestampAndWeekday(requests[k].date, 1);
  }

  /** Earlier days of the week have earlier dates. */
  lemma DaysStrictlyIncreasing(requests: seq<DayRequest>, days: seq<CalendarDay>, startDate: DateTime,
                               currentDate: DateTime, items: ItemSource, j: nat, k: nat)
    requires WeekRequests(requests, days, startDate, currentDate, items)
    requires j < k < |requests|
    ensures Before(requests[j].date, requests[k].date)
  {
    AddDaysIncreasing(startDate, j, k);
  }
}
