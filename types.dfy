/** The schedule's data: days of the week, class entries and the weekly schedule. */
module Types {
  import opened Js

  datatype Day = Monday | Tuesday | Wednesday | Thursday | Friday | Saturday | Sunday

  /** The tab and storage order of the days, Monday first. */
  const AllDays: seq<Day> := [Monday, Tuesday, Wednesday, Thursday, Friday, Saturday, Sunday]

  function DayName(d: Day): string
  {
    match d
    case Monday => "Monday"
    case Tuesday => "Tuesday"
    case Wednesday => "Wednesday"
    case Thursday => "Thursday"
    case Friday => "Friday"
    case Saturday => "Saturday"
    case Sunday => "Sunday"
  }

  /** The day a name stands for, when it is exactly one of the seven names. */
  function DayFromName(s: string): (r: Option<Day>)
    ensures r.Some? ==> DayName(r.value) == s
  {
    if s == "Monday" then Some(Monday)
    else if s == "Tuesday" then Some(Tuesday)
    else if s == "Wednesday" then Some(Wednesday)
    else if s == "Thursday" then Some(Thursday)
    else if s == "Friday" then Some(Friday)
    else if s == "Saturday" then Some(Saturday)
    else if s == "Sunday" then Some(Sunday)
    else None
  }

  /** `['Sunday', 'Monday', ..., 'Saturday'][i]` for the index `Date.getDay()` returns. */
  function DayOfJsIndex(i: int): Day
    requires 0 <= i < 7
  {
    [Sunday, Monday, Tuesday, Wednesday, Thursday, Friday, Saturday][i]
  }

  /** One entry of a day: a class the user has, or a free period the normaliser made. */
  datatype Class = Class(
    id: string,
    subject: string,
    roomNumber: string,
    duration: string,
    startTime: string,
    endTime: string,
    dayOfWeek: Day,
    alarmEnabled: bool,
    isConsecutive: bool,
    isFreePeriod: bool)

  type Schedule = map<Day, seq<Class>>

  predicate HasAllDays(s: Schedule)
  {
    forall d: Day :: d in s
  }

  /** `schedule[d] || []`. */
  function DayList(s: Schedule, d: Day): seq<Class>
  {
    if d in s then s[d] else []
  }

  function EmptySchedule(): (s: Schedule)
    ensures HasAllDays(s) && forall d: Day :: s[d] == []
  {
    var s := map[Monday := [], Tuesday := [], Wednesday := [], Thursday := [], Friday := [],
                 Saturday := [], Sunday := []];
    SevenKeys(s);
    s
  }

  /** A map that has the seven day names as keys has every day. */
  lemma SevenKeys<V>(m: map<Day, V>)
    requires Monday in m && Tuesday in m && Wednesday in m && Thursday in m
    requires Friday in m && Saturday in m && Sunday in m
    ensures forall d: Day :: d in m
  {
    forall d: Day
      ensures d in m
    {
      match d
      case Monday =>
      case Tuesday =>
      case Wednesday =>
      case Thursday =>
      case Friday =>
      case Saturday =>
      case Sunday =>
    }
  }

  /** Every name `DayName` gives is read back as the same day. */
  lemma DayNameRoundTrip(d: Day)
    ensures DayFromName(DayName(d)) == Some(d)
  {
  }

  /** Where a day stands in `AllDays`. */
  function DayIndex(d: Day): (i: nat)
    ensures i < |AllDays| && AllDays[i] == d
  {
    match d
    case Monday => 0
    case Tuesday => 1
    case Wednesday => 2
    case Thursday => 3
    case Friday => 4
    case Saturday => 5
    case Sunday => 6
  }

  /** `AllDays` lists each day once. */
  lemma IndexOfDay(n: int)
    requires 0 <= n < |AllDays|
    ensures DayIndex(AllDays[n]) == n
  {
  }

  lemma EveryDayListed(d: Day)
    ensures d in AllDays
  {
    var i := DayIndex(d);
  }
}
