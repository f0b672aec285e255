# t3calendar calendar composition, modelled in Dafny

This project models the part of the t3calendar TYPO3 extension that builds a
calendar tree: the week factory and the year factory, and the `CalendarDay`
and `CalendarMonth` nodes of the tree.

- `CalendarWeekFactory::create` makes seven consecutive dates, `startDate`
  plus 0..6 days. It flags a date as current when it is exactly
  `currentDate`. It hands each date, the caller's items and the flag to a day
  factory, and adds the returned day to a new week.
- `CalendarYearFactory::create` looks in the `t3calendar_year` cache under a
  key made from the start date and the current date. On a hit it returns the
  cached year. On a miss it builds a new year: the start date is set, twelve
  months built from `startDate` plus 0..11 months go through a month factory,
  and the year is stored under the key.
- `CalendarDay` holds a date, an item storage and a current flag.
  `CalendarMonth` holds a start date and a week storage. Both have setters,
  attach/detach operations, and derived getters that give null when there is
  no date.

Files and modules:

- `wrappers.dfy` (`Wrappers`): `Option`, standing for a PHP value that may be null.
- `object_storage.dfy` (`ObjectStorage`): Extbase's `ObjectStorage` as a
  duplicate-free sequence in attachment order, with `Attach` and `Detach`.
- `dates.dfy` (`Dates`): PHP `DateTime` as a valid civil date plus a time of
  day in microseconds. It adds `P<k>D` and `P<n>M` intervals the way
  `DateTime::add` does. It has day numbers, Unix timestamps, `date('w')`, and
  the format letters `d` and `n`.
- `calendar_day.dfy`, `calendar_week.dfy`, `calendar_month.dfy`,
  `calendar_year.dfy`: the four node classes, updated in place.
  `CalendarDay` and `CalendarMonth` keep their fields as in the source. The
  fields of `CalendarWeek` and `CalendarYear` are assumed, because the source
  of those two classes is not part of this model.
- `week_factory.dfy`, `year_factory.dfy`: the two factories, with their
  collaborators. The day factory and the month factory stand in for classes
  whose source is not part of this model. Each returns a new object on every
  call and keeps a ghost log of its calls.

Getters that only return a field (`GetDate`, `IsCurrent`, `GetItems`,
`GetWeeks`, `GetStartDate`) are plain functions, and so is `GetHasItems`;
what the day's tests promise about `getHasItems` is stated on the members
that change the items. The setters' contracts state
their round trips: each setter sets its own field and leaves the others alone.

The factories' properties are stated twice. `Create`'s postcondition relates
the new state to the log through the predicates `WeekRequests` and
`YearRequests`. The lemmas beside `Create` then derive the promised facts
from those predicates.

Four behaviours of the code that are easy to misread:

- **Month addition overflows; it does not clamp.** The code adds a plain
  `P<n>M` interval (Classes/Domain/Factory/CalendarYearFactory.php:65-67). So
  31 January 2017 plus one month is 3 March 2017, not 28 February. Month i is
  always computed from the start date, so month starts are not all one month
  apart: for 31 January they are 31 January, 3 March, 31 March, ...
  (`Dates.JanuaryEndPlusOneMonth`). They do still strictly increase
  (`Dates.AddMonthsIncreasing`).
- **"Current" means the same instant, not the same calendar day.** The test is
  `$currentDate == $dateOfDay` (Classes/Domain/Factory/CalendarWeekFactory.php:44).
  If the current date has a different time of day from the start date, no day
  of the week is current (`CalendarWeekFactoryModel.NoCurrentDayAtOtherTimeOfDay`).
- **The week factory does not filter items.** Every day-factory call receives
  the caller's items argument unchanged. Filtering, if any, belongs to the day
  factory, which is not part of this model.
- **Cache failures are not told apart from misses.** A cache `get` that
  returns `false` is treated as a miss and leads to a rebuild.

## Model

| member | source | states |
|---|---|---|
| `ObjectStorage.Attach` | Classes/Domain/Model/CalendarDay.php:155-158 | afterwards the object is stored; every object stored before is still stored, in the same order and first; nothing else is added; attaching an object already stored changes nothing |
| `ObjectStorage.Detach` | Classes/Domain/Model/CalendarDay.php:163-166 | afterwards the object is not stored; every other object stored before remains and nothing is added; the count drops by one exactly when the object was stored |
| `ObjectStorage.AttachIdempotent` | Classes/Domain/Model/CalendarDay.php:155-158 | attaching the same object twice gives the same storage as attaching it once |
| `ObjectStorage.DetachUndoesAttach` | Classes/Domain/Model/CalendarDay.php:155-166 | detaching an object that was just attached to a storage not holding it gives back that storage exactly |
| `ObjectStorage.AttachNewAppends` | Classes/Domain/Model/CalendarMonth.php:77-80 | attaching an object not yet stored puts it last |
| `Dates.DaysInMonth` | Classes/Domain/Factory/CalendarWeekFactory.php:40-43 | months have 28 to 31 days; 29 exactly for February of a Gregorian leap year, 30 exactly for April, June, September and November |
| `Dates.NextDay` | Classes/Domain/Factory/CalendarWeekFactory.php:40-43 | adding `P1D` keeps the time of day and gives a strictly later instant that is again a valid calendar date |
| `Dates.NextDayOrdinal` | Classes/Domain/Factory/CalendarWeekFactory.php:40-43 | adding `P1D` advances the day number since 1970-01-01 by exactly one, across month and year ends and leap days |
| `Dates.AddDays` | Classes/Domain/Factory/CalendarWeekFactory.php:39-43 | `P<k>D` on a clone of the start date is k applications of `NextDay`: the time of day is kept; its day-number, order and injectivity facts are `AddDaysOrdinal`, `AddDaysIncreasing` and `AddDaysInjective` |
| `Dates.AddDaysOrdinal` | Classes/Domain/Factory/CalendarWeekFactory.php:39-43 | adding `P<k>D` keeps the time of day and advances the day number by exactly k |
| `Dates.AddDaysIncreasing` | Classes/Domain/Factory/CalendarWeekFactory.php:38-43 | a date plus more days is strictly later |
| `Dates.AddDaysInjective` | Classes/Domain/Factory/CalendarWeekFactory.php:38-44 | different day offsets from one date never give the same instant |
| `Dates.AddDaysTimestampAndWeekday` | Classes/Domain/Factory/CalendarWeekFactory.php:39-43 | adding k days adds 86400·k seconds to the Unix timestamp and moves the weekday k places on, modulo 7 |
| `Dates.WeekAcrossNewYear` | Classes/Domain/Factory/CalendarWeekFactory.php:38-43 | from 30 December 2017, day 2 is 1 January 2018 and day 6 is 5 January 2018 |
| `Dates.AddMonths` | Classes/Domain/Factory/CalendarYearFactory.php:63-68 | adding `P<n>M` keeps the time of day and gives a valid calendar date |
| `Dates.AddMonthsPosition` | Classes/Domain/Factory/CalendarYearFactory.php:63-68 | the result of adding `P<n>M` lies n calendar months on, on the same day of the month, when that month has the day; otherwise it lies in the month after, on day (day − length of the target month), at most 3 |
| `Dates.AddMonthsZero` | Classes/Domain/Factory/CalendarYearFactory.php:63-68 | adding zero months gives the date unchanged, so the skipped `add` for month 0 changes nothing |
| `Dates.AddMonthsStep` | Classes/Domain/Factory/CalendarYearFactory.php:62-68 | adding one more month always gives a strictly later instant, overflow included |
| `Dates.AddMonthsIncreasing` | Classes/Domain/Factory/CalendarYearFactory.php:62-68 | for i < j, the date plus i months is strictly earlier than the date plus j months |
| `Dates.JanuaryEndPlusOneMonth` | Classes/Domain/Factory/CalendarYearFactory.php:65-67 | 31 January 2017 plus one month is 3 March 2017; plus two months is 31 March 2017; one month added twice differs from two months added once |
| `Dates.BeforeTransitive` | Classes/Domain/Factory/CalendarWeekFactory.php:38-43 | chronological order is transitive |
| `Dates.BeforeIrreflexive` | Classes/Domain/Factory/CalendarWeekFactory.php:38-43 | no instant is before itself |
| `Dates.Timestamp` | Classes/Domain/Model/CalendarDay.php:106 | `getTimestamp()` is whole UTC seconds since the epoch: divided by 86400 it gives the day number, and its remainder is the second of the day the time of day falls in |
| `Dates.WeekdayOfTimestamp` | Classes/Domain/Model/CalendarDay.php:106 | `date('w', ts)` lies in 0..6 |
| `Dates.Weekday` | Classes/Domain/Model/CalendarDay.php:103-107 | the weekday of a date lies in 0..6 |
| `Dates.WeekdayOfTimestampIsWeekday` | Classes/Domain/Model/CalendarDay.php:106 | the weekday read from a date's timestamp is the weekday of that date's day |
| `Dates.EpochIsThursday` | Classes/Domain/Model/CalendarDay.php:106 | 1 January 1970 is day 0 and timestamp 0, and it is weekday 4 (Thursday), so 0 stands for Sunday |
| `Dates.SeptemberFirst2015` | Tests/Unit/Domain/Model/CalendarDayTest.php:136-146 | the timestamp 1441065600 is 1 September 2015, 00:00, and its weekday is 2 (Tuesday) |
| `Dates.DigitChar` | Classes/Domain/Model/CalendarDay.php:94 | a digit value renders as a character between '0' and '9' |
| `Dates.FormatDecimal` | Classes/Domain/Model/CalendarDay.php:176 | format letter 'n' gives at least one decimal digit; one digit exactly for values below 10, at most two below 100 |
| `Dates.FormatTwoDigits` | Classes/Domain/Model/CalendarDay.php:94 | format letter 'd' gives exactly two decimal digits |
| `Dates.FormatDecimalValue` | Classes/Domain/Model/CalendarDay.php:173-177 | reading the digits rendered for 'n' gives back the number |
| `Dates.FormatTwoDigitsValue` | Classes/Domain/Model/CalendarDay.php:91-95 | reading the two digits rendered for 'd' gives back the number |
| `CalendarDayModel.CalendarDay.constructor` | Classes/Domain/Model/CalendarDay.php:44-50 | a new day has no items, so `getHasItems` is false, and is not current; its date is the one passed, or none when null is passed |
| `CalendarDayModel.CalendarDay.SetDate` | Classes/Domain/Model/CalendarDay.php:81-84 | the date becomes the one given (so `getDate` returns it); items and current flag are unchanged |
| `CalendarDayModel.CalendarDay.GetDay` | Classes/Domain/Model/CalendarDay.php:91-98 | null exactly when there is no date; otherwise exactly two decimal digits (leading zero included) whose value is the date's day of the month, between 1 and the month's length |
| `CalendarDayModel.CalendarDay.GetDayOfWeek` | Classes/Domain/Model/CalendarDay.php:103-110 | null exactly when there is no date; otherwise a number in 0..6, the weekday of the date with 0 for Sunday |
| `CalendarDayModel.CalendarDay.SetCurrent` | Classes/Domain/Model/CalendarDay.php:127-130 | the current flag becomes the one given (so `isCurrent` returns it); date and items are unchanged |
| `CalendarDayModel.CalendarDay.SetItems` | Classes/Domain/Model/CalendarDay.php:147-150 | the items become the storage given (so `getItems` returns it); date and current flag are unchanged |
| `CalendarDayModel.CalendarDay.AddItem` | Classes/Domain/Model/CalendarDay.php:155-158 | the items become the old items with the item attached, so they contain it along with all old items, and `getHasItems` is then true; date and flag are unchanged |
| `CalendarDayModel.CalendarDay.RemoveItem` | Classes/Domain/Model/CalendarDay.php:163-166 | the items become the old items with the item detached, so they no longer contain it and keep every other old item; `getHasItems` is then true exactly when some other item was stored; date and flag are unchanged |
| `CalendarDayModel.CalendarDay.GetMonth` | Classes/Domain/Model/CalendarDay.php:173-180 | null exactly when there is no date; otherwise decimal digits with no leading zero, one digit exactly for months below 10 and two otherwise, whose value is the date's month, between 1 and 12 |
| `CalendarDayModel.CalendarDay.GetDate` | Classes/Domain/Model/CalendarDay.php:72-75 | returns the date field (a plain getter, no contract of its own) |
| `CalendarDayModel.CalendarDay.IsCurrent` | Classes/Domain/Model/CalendarDay.php:117-120 | returns the current flag (a plain getter, no contract of its own) |
| `CalendarDayModel.CalendarDay.GetItems` | Classes/Domain/Model/CalendarDay.php:137-140 | returns the item storage (a plain getter, no contract of its own) |
| `CalendarDayModel.CalendarDay.GetHasItems` | Classes/Domain/Model/CalendarDay.php:186-189 | whether the storage is non-empty; its promises are on the members that change the items: false for a new day (`constructor`), true after `AddItem`, and after `RemoveItem` true exactly when another item was stored (Tests/Unit/Domain/Model/CalendarDayTest.php:261-279) |
| `CalendarWeekModel.CalendarWeek.constructor` | Classes/Domain/Factory/CalendarWeekFactory.php:36 | a new week has no days |
| `CalendarWeekModel.CalendarWeek.AddDay` | Classes/Domain/Factory/CalendarWeekFactory.php:51 | the days become the old days with the day attached |
| `CalendarMonthModel.CalendarMonth.GetWeeks` | Classes/Domain/Model/CalendarMonth.php:61-64 | returns the week storage (a plain getter, no contract of its own) |
| `CalendarMonthModel.CalendarMonth.GetStartDate` | Classes/Domain/Model/CalendarMonth.php:95-98 | returns the start date (a plain getter, no contract of its own) |
| `CalendarMonthModel.CalendarMonth.constructor` | Classes/Domain/Model/CalendarMonth.php:36-54 | a new month has no weeks and no start date |
| `CalendarMonthModel.CalendarMonth.SetWeeks` | Classes/Domain/Model/CalendarMonth.php:69-72 | the weeks become the storage given (so `getWeeks` returns it); the start date is unchanged |
| `CalendarMonthModel.CalendarMonth.AddWeek` | Classes/Domain/Model/CalendarMonth.php:77-80 | the weeks become the old weeks with the week attached, so they contain it and all old weeks, with no duplicate; the start date is unchanged |
| `CalendarMonthModel.CalendarMonth.RemoveWeek` | Classes/Domain/Model/CalendarMonth.php:85-88 | the weeks become the old weeks with the week detached, so they no longer contain it and keep every other old week; the start date is unchanged |
| `CalendarMonthModel.CalendarMonth.SetStartDate` | Classes/Domain/Model/CalendarMonth.php:105-108 | the start date becomes the one given, null included (so `getStartDate` returns it); the weeks are unchanged |
| `CalendarMonthModel.CalendarMonth.GetMonth` | Classes/Domain/Model/CalendarMonth.php:115-122 | null exactly when there is no start date; otherwise decimal digits with no leading zero, one digit exactly for months below 10 and two otherwise, whose value is the start date's month, 1..12, whatever the weeks hold |
| `CalendarYearModel.CalendarYear.constructor` | Classes/Domain/Factory/CalendarYearFactory.php:59 | a new year has no months and no start date |
| `CalendarYearModel.CalendarYear.SetStartDate` | Classes/Domain/Factory/CalendarYearFactory.php:60 | the start date becomes the one given; the months are unchanged |
| `CalendarYearModel.CalendarYear.AddMonth` | Classes/Domain/Factory/CalendarYearFactory.php:71 | the months become the old months with the month attached; the start date is unchanged |
| `CalendarWeekFactoryModel.CalendarDayFactory.constructor` | Classes/Domain/Factory/CalendarWeekFactory.php:25 | a new day factory has logged no calls |
| `CalendarWeekFactoryModel.CalendarDayFactory.Create` | Classes/Domain/Factory/CalendarWeekFactory.php:46-50 | each call returns a new day and is logged with its date, items and current flag |
| `CalendarWeekFactoryModel.CalendarWeekFactory.constructor` | Classes/Domain/Factory/CalendarWeekFactory.php:25 | the week factory uses the day factory it is given |
| `CalendarWeekFactoryModel.CalendarWeekFactory.Create` | Classes/Domain/Factory/CalendarWeekFactory.php:33-55 | a new week of exactly 7 days; the day factory is called exactly 7 more times, earlier calls untouched; call k (k = 0..6, ascending) gets `startDate` plus k days, the caller's items unchanged, and current = (that date is exactly `currentDate`); week day k is what call k returned; only the day factory changes |
| `CalendarWeekFactoryModel.AtMostOneCurrentDay` | Classes/Domain/Factory/CalendarWeekFactory.php:44 | two different days of a built week are never both current |
| `CalendarWeekFactoryModel.CurrentDayIsFound` | Classes/Domain/Factory/CalendarWeekFactory.php:44 | when `currentDate` is the start date plus k days, day j is current exactly when j = k |
| `CalendarWeekFactoryModel.NoCurrentDayAtOtherTimeOfDay` | Classes/Domain/Factory/CalendarWeekFactory.php:44 | when `currentDate` has a different time of day from `startDate`, no day is current |
| `CalendarWeekFactoryModel.DayDates` | Classes/Domain/Factory/CalendarWeekFactory.php:39-43 | day 0's date is `startDate` itself; day k keeps its time of day, has day number, timestamp and weekday k days later |
| `CalendarWeekFactoryModel.DaysAscending` | Classes/Domain/Factory/CalendarWeekFactory.php:38-43 | each day's date is the calendar day after the previous day's: strictly later, 86400 seconds later, the next weekday |
| `CalendarWeekFactoryModel.DaysStrictlyIncreasing` | Classes/Domain/Factory/CalendarWeekFactory.php:38-43 | an earlier day of the week has an earlier date than any later day |
| `CalendarYearFactoryModel.CalendarMonthFactory.constructor` | Classes/Domain/Factory/CalendarYearFactory.php:27 | a new month factory has logged no calls |
| `CalendarYearFactoryModel.CalendarMonthFactory.Create` | Classes/Domain/Factory/CalendarYearFactory.php:70 | each call returns a new month and is logged with its start date, current date and items |
| `CalendarYearFactoryModel.CacheIdentifierInjective` | Classes/Domain/Factory/CalendarYearFactory.php:54 | the cache key `CacheIdentifierOf` is made of the start date and the current date and of nothing else: two calls share a key exactly when their start dates and their current dates agree, whatever their items |
| `CalendarYearFactoryModel.CalendarYearFactory.constructor` | Classes/Domain/Factory/CalendarYearFactory.php:39-42 | the factory starts with the cache store it is given, which may already hold years |
| `CalendarYearFactoryModel.CalendarYearFactory.NewYear` | Classes/Domain/Factory/CalendarYearFactory.php:59-72 | a new year with start date `startDate` and exactly 12 months; exactly 12 more month-factory calls, earlier ones untouched; call i (i = 0..11, ascending) gets `startDate` plus i months and the caller's current date and items, and year month i is what call i returned |
| `CalendarYearFactoryModel.CalendarYearFactory.Create` | Classes/Domain/Factory/CalendarYearFactory.php:52-78 | hit: returns the cached year unchanged, cache and month-factory log untouched. Miss: a new year with start date `startDate` and exactly 12 months; exactly 12 more month-factory calls, earlier ones untouched; call i (i = 0..11, ascending) gets `startDate` plus i months and the caller's current date and items, and year month i is what call i returned; the cache gains that one key, mapped to the year |
| `CalendarYearFactoryModel.CreateTwice` | Classes/Domain/Factory/CalendarYearFactory.php:54-74 | after a call, a second call with the same dates and any items, the items taking no part in the key, returns the same year object, which the cache holds under their key; the two calls together make at most 12 month-factory calls, so at most one of them builds a year |
| `CalendarYearFactoryModel.MonthStarts` | Classes/Domain/Factory/CalendarYearFactory.php:62-70 | month 0 is built from `startDate` itself; later months are built from strictly later dates with the same time of day |
| `CalendarYearFactoryModel.MonthStartPosition` | Classes/Domain/Factory/CalendarYearFactory.php:63-68 | month i's start lies i or i + 1 calendar months after the start date's month; for a start day up to the 28th it is exactly i months on, on the same day |

## Left out

- The day, month and quarter factories (`CalendarDayFactory`, `CalendarMonthFactory`, `CalendarQuarterFactory`): their sources are not part of this model. The two used here promise only a new object per call and a logged call. Their bodies are placeholders that no proof looks into. Item filtering and the week-count policy of a month are not modelled.
- `CalendarWeek` and `CalendarYear`: their sources are not part of this model. `addDay` and `addMonth` are modelled as attaching to an `ObjectStorage`, like `CalendarMonth::addWeek`.
- CalendarWeekFactoryModel.CalendarDayFactory.Create: its contract does not say that the day carries the date or flag given, because the source of that factory is not part of this model; the week's properties are stated on the logged arguments instead.
- CalendarYearFactoryModel.CalendarMonthFactory.Create: its contract does not describe the month it builds, for the same reason.
- The object manager: `get(CalendarWeek::class)` and `get(CalendarYear::class)` are modelled as allocating a new object.
- The cache identifier: `sha1(serialize(...))` and its possible collisions are not modelled. The key is the pair of dates.
- The cache backend (`CacheManagerTrait`, the TYPO3 cache frontend): the cache is a map field. Expiry, invalidation, backend failures and concurrent use are not modelled.
- Cache identity: the `t3calendar_year` cache is a variable frontend that serializes the year on `set` (Classes/Domain/Factory/CalendarYearFactory.php:74) and unserializes it on `get` (line 55) for a persistent backend. A hit there returns an equal copy, and later changes to the returned year do not reach the cache. The model's map hands back the very object stored, so `CalendarYearFactoryModel.CalendarYearFactory.Create`'s hit branch and `CalendarYearFactoryModel.CreateTwice` describe a transient (in-memory) backend only.
- Time zones and daylight saving time: every date is a UTC date with 86400-second days, as `new \DateTime('@' . $timeStamp)` gives in Tests/Unit/Domain/Model/CalendarDayTest.php:139. `Dates.Timestamp` is the UTC timestamp; in another zone `getTimestamp()` would differ by the zone's offset, and `date('w', ...)` is assumed to use UTC too.
- `getMonth($format)`: only the default format 'n' is modelled, because other format strings are rendered by PHP's date library.
- `getDay` and `getMonth` return the rendered digit strings, as `format('d')` and `format('n')` do. The `@return int` comment on `getDay` is not followed.
- Aliasing of `ObjectStorage`: `setItems` and `setWeeks` store a reference to the caller's storage in the source, but the model stores its contents. Later changes through another reference to the same storage are not reflected.
- Cloning: `DateTime` is a value in the model, so the clones at Classes/Domain/Factory/CalendarWeekFactory.php:39 and Classes/Domain/Factory/CalendarYearFactory.php:63 do nothing. The caller's start date cannot be changed by construction.
- `CalendarItemInterface`: items are opaque objects; none of their methods are modelled.
- The date view helper, the extension metadata and the calendar controller are not part of this model.
