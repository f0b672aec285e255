/**
 * `CalendarYearFactory`: builds a year of twelve months through a month
 * factory, behind a cache keyed by the start date and the current date.
 */
module CalendarYearFactoryModel {

  import opened Wrappers
  import opened Dates
  import opened ObjectStorage
  import opened CalendarDayModel
  import opened CalendarMonthModel
  import opened CalendarYearModel

  /** One call of the month factory: its three arguments and the month it returned. */
  datatype MonthRequest = MonthRequest(startDate: DateTime, currentDate: DateTime, items: ItemSource, month: CalendarMonth)

  /**
   * The month factory the year factory delegates to. Its source is not part
   * of this model: all the year factory relies on is that it returns a new
   * month. The ghost log records every call.
   */
  class CalendarMonthFactory {
    ghost var requests: seq<MonthRequest>

    constructor ()
      ensures requests == []
    {
      requests := [];
    }

    method Create(startDate: DateTime, currentDate: DateTime, items: ItemSource) returns (month: CalendarMonth)
      modifies this
      ensures fresh(month)
      ensures requests == old(requests) + [MonthRequest(startDate, currentDate, items, month)]
    {
      month := new CalendarMonth();
      month.SetStartDate(Some(startDate));
      requests := requests + [MonthRequest(startDate, currentDate, items, month)];
    }
  }

  /**
   * The cache identifier: the source hashes the serialized start date and
   * current date; the model keeps the pair itself. The items take no part.
   */
  type CacheIdentifier = (DateTime, DateTime)

  function CacheIdentifierOf(startDate: DateTime, currentDate: DateTime): CacheIdentifier
  {
    (startDate, currentDate)
  }

  /** Two calls share a cache entry exactly when they have the same start date and the same current date. */
  lemma CacheIdentifierInjective(s1: DateTime, c1: DateTime, s2: DateTime, c2: DateTime)
    ensures CacheIdentifierOf(s1, c1) == CacheIdentifierOf(s2, c2) <==> s1 == s2 && c1 == c2
  {
  }

  /**
   * `requests` are the month-factory calls for the months `months` of a year
   * from `startDate`, in order: call i is for `startDate` plus i months, with
   * the caller's current date and items, and returned `months[i]`.
   */
  ghost predicate YearRequests(requests: seq<MonthRequest>, months: seq<CalendarMonth>,
                               startDate: DateTime, currentDate: DateTime, items: ItemSource) {
    && |requests| == |months|
    && forall i :: 0 <= i < |requests| ==>
         && requests[i].startDate == AddMonths(startDate, i)
         && requests[i].currentDate == currentDate
         && requests[i].items == items
         && requests[i].month == months[i]
  }

  /** Appending the request for the next month, and the month it returned, keeps `YearRequests`. */
  lemma YearRequestsExtend(requests: seq<MonthRequest>, months: seq<CalendarMonth>, r: MonthRequest,
                           startDate: DateTime, currentDate: DateTime, items: ItemSource)
    requires YearRequests(requests, months, startDate, currentDate, items)
    requires r.startDate == AddMonths(startDate, |requests|)
    requires r.currentDate == currentDate && r.items == items
    ensures YearRequests(requests + [r], months + [r.month], startDate, currentDate, items)
  {
  }

  class CalendarYearFactory {
    /** The `t3calendar_year` cache; a missing key is `get` returning false. */
    var yearCache: map<CacheIdentifier, CalendarYear>
    const calendarMonthFactory: CalendarMonthFactory

    /** The cache is an external store, so it may already hold entries. */
    constructor (calendarMonthFactory: CalendarMonthFactory, yearCache: map<CacheIdentifier, CalendarYear>)
      ensures this.calendarMonthFactory == calendarMonthFactory && this.yearCache == yearCache
    {
      this.calendarMonthFactory := calendarMonthFactory;
      this.yearCache := yearCache;
    }

    /**
     * A new year starting at `startDate` whose twelve months are what the
     * month factory returned for `startDate` plus 0..11 months, in order,
     * each with the caller's current date and items.
     */
    method NewYear(startDate: DateTime, currentDate: DateTime, items: ItemSource) returns (year: CalendarYear)
      modifies calendarMonthFactory
      ensures fresh(year)
      ensures year.startDate == Some(startDate)
      ensures |year.months| == 12
      ensures |calendarMonthFactory.requests| == |old(calendarMonthFactory.requests)| + 12
      ensures calendarMonthFactory.requests[..|old(calendarMonthFactory.requests)|] == old(calendarMonthFactory.requests)
      ensures YearRequests(calendarMonthFactory.requests[|old(calendarMonthFactory.requests)|..], year.months,
                           startDate, currentDate, items)
    {
      ghost var before := calendarMonthFactory.requests;
      ghost var added: seq<MonthRequest> := [];
      year := new CalendarYear();
      year.SetStartDate(Some(startDate));
      for monthOfYear := 0 to 12
        invariant fresh(year)
        invariant year.startDate == Some(startDate)
        invariant |year.months| == monthOfYear
        invariant calendarMonthFactory.requests == before + added
        invariant YearRequests(added, year.months, startDate, currentDate, items)
      {
        var startDateOfMonth := startDate;
        if monthOfYear > 0 {
          startDateOfMonth := AddMonths(startDate, monthOfYear);
        } else {
          AddMonthsZero(startDate);
        }
        assert startDateOfMonth == AddMonths(startDate, monthOfYear);
        ghost var monthsBefore := year.months;
        var currentMonth := calendarMonthFactory.Create(startDateOfMonth, currentDate, items);
        year.AddMonth(currentMonth);
        AttachNewAppends(monthsBefore, currentMonth);
        ghost var r := MonthRequest(startDateOfMonth, currentDate, items, currentMonth);
        YearRequestsExtend(added, monthsBefore, r, startDate, currentDate, items);
        added := added + [r];
      }
      assert calendarMonthFactory.requests[|before|..] == added;
    }

    /**
     * On a cache hit: the cached year, untouched, with no month-factory call
     * and no cache change. On a miss: the year `NewYear` builds, stored
     * under the key.
     */
    method Create(startDate: DateTime, currentDate: DateTime, items: ItemSource) returns (year: CalendarYear)
      modifies this, calendarMonthFactory
      ensures var key := CacheIdentifierOf(startDate, currentDate);
        key in old(yearCache) ==>
          && year == old(yearCache)[key]
          && unchanged(year)
          && yearCache == old(yearCache)
          && calendarMonthFactory.requests == old(calendarMonthFactory.requests)
      ensures var key := CacheIdentifierOf(startDate, currentDate);
        key !in old(yearCache) ==>
          && fresh(year)
          && yearCache == old(yearCache)[key := year]
          && year.startDate == Some(startDate)
          && |year.months| == 12
          && |calendarMonthFactory.requests| == |old(calendarMonthFactory.requests)| + 12
          && calendarMonthFactory.requests[..|old(calendarMonthFactory.requests)|] == old(calendarMonthFactory.requests)
          && YearRequests(calendarMonthFactory.requests[|old(calendarMonthFactory.requests)|..], year.months,
                          startDate, currentDate, items)
    {
      var cacheIdentifier := CacheIdentifierOf(startDate, currentDate);
      if cacheIdentifier in yearCache {
        year := yearCache[cacheIdentifier];
      } else {
        year := NewYear(startDate, currentDate, items);
        yearCache := yearCache[cacheIdentifier := year];
      }
    }
  }

  /**
   * Two calls with the same start and current date: the second is a cache
   * hit and returns the very year the first built or found, whatever items
   * it is given; together they build at most one year of twelve months.
   */
  method CreateTwice(factory: CalendarYearFactory, startDate: DateTime, currentDate: DateTime,
                     items: ItemSource, otherItems: ItemSource)
    returns (first: CalendarYear, second: CalendarYear)
    modifies factory, factory.calendarMonthFactory
    ensures second == first
    ensures CacheIdentifierOf(startDate, currentDate) in factory.yearCache
    ensures factory.yearCache[CacheIdentifierOf(startDate, currentDate)] == first
    ensures |factory.calendarMonthFactory.requests| <= |old(factory.calendarMonthFactory.requests)| + 12
  {
    first := factory.Create(startDate, currentDate, items);
    ghost var requests := factory.calendarMonthFactory.requests;
    second := factory.Create(startDate, currentDate, otherItems);
    assert factory.calendarMonthFactory.requests == requests;
  }

  /** Month 0 starts at the start date itself, and later months start strictly later. */
  lemma MonthStarts(requests: seq<MonthRequest>, months: seq<CalendarMonth>, startDate: DateTime,
                    currentDate: DateTime, items: ItemSource, i: nat, j: nat)
    requires YearRequests(requests, months, startDate, currentDate, items)
    requires i < j < |requests|
    ensures requests[0].startDate == startDate
    ensures Before(requests[i].startDate, requests[j].startDate)
    ensures requests[j].startDate.timeOfDay == startDate.timeOfDay
  {
    AddMonthsZero(startDate);
    AddMonthsIncreasing(startDate, i, j);
  }

  /**
   * Month i starts in the i-th calendar month after the start date's, on the
   * same day of the month, unless that month is too short: then it starts
   * in the month after, on the day the excess reaches.
   */
  lemma MonthStartPosition(requests: seq<MonthRequest>, months: seq<CalendarMonth>, startDate: DateTime,
                           currentDate: DateTime, items: ItemSource, i: nat)
    requires YearRequests(requests, months, startDate, currentDate, items)
    requires i < |requests|
    ensures startDate.day <= 28 ==>
      MonthIndex(requests[i].startDate) == MonthIndex(startDate) + i && requests[i].startDate.day == startDate.day
    ensures MonthIndex(startDate) + i <= MonthIndex(requests[i].startDate) <= MonthIndex(startDate) + i + 1
  {
    AddMonthsPosition(startDate, i);
  }
}
