/** The schedule view's choice of the day tab it opens on. */
module Display {
  import opened Js
  import opened Types
  import opened Utils

  /** `getToday`: the day `getDay()` names, Sunday being 0. */
  function GetToday(dayIndex: int): (d: Day)
    requires 0 <= dayIndex < 7
    ensures DayName(d) == ["Sunday", "Monday", "Tuesday", "Wednesday", "Thursday", "Friday", "Saturday"][dayIndex]
  {
    DayOfJsIndex(dayIndex)
  }

  /** `schedule[d]?.length > 0`. */
  predicate HasClasses(s: Schedule, d: Day)
  {
    d in s && |s[d]| > 0
  }

  /** `ALL_DAYS.find(d => schedule[d]?.length > 0)`, searching from position `from`. */
  function FirstDayWithClasses(s: Schedule, from: nat): (r: Option<Day>)
    requires from <= |AllDays|
    ensures r.Some? ==>
      HasClasses(s, r.value) && from <= DayIndex(r.value) &&
      forall k :: from <= k < DayIndex(r.value) ==> !HasClasses(s, AllDays[k])
    ensures r.None? ==> forall k :: from <= k < |AllDays| ==> !HasClasses(s, AllDays[k])
    decreases |AllDays| - from
  {
    if from == |AllDays| then None
    else if HasClasses(s, AllDays[from]) then
      IndexOfDay(from);
      Some(AllDays[from])
    else FirstDayWithClasses(s, from + 1)
  }

  /** `initialTab`: today when today has classes, else the first day from Monday on that has
      some, else today. */
  function InitialTab(s: Schedule, dayIndex: int): (tab: Day)
    requires 0 <= dayIndex < 7
    ensures HasClasses(s, tab) || tab == GetToday(dayIndex)
  {
    var today := GetToday(dayIndex);
    if HasClasses(s, today) then today
    else
      match FirstDayWithClasses(s, 0)
      case Some(d) => d
      case None => today
  }

  // ----- Properties -----

  /** `getToday` names the days Sunday to Saturday for 0 to 6, and each day has one index. */
  lemma GetTodayNames(i: int, j: int)
    requires 0 <= i < 7 && 0 <= j < 7
    ensures DayName(GetToday(i)) == ["Sunday", "Monday", "Tuesday", "Wednesday", "Thursday", "Friday", "Saturday"][i]
    ensures GetToday(i) == GetToday(j) ==> i == j
  {
  }

  /** Every day is today on one weekday. */
  lemma EveryDayIsToday(d: Day)
    ensures exists i :: 0 <= i < 7 && GetToday(i) == d
  {
    var i := match d
      case Sunday => 0 case Monday => 1 case Tuesday => 2 case Wednesday => 3
      case Thursday => 4 case Friday => 5 case Saturday => 6;
    assert GetToday(i) == d;
  }

  /** The tab opens on today exactly when today has classes or no day has any; otherwise it
      opens on the first day, from Monday on, that has some. */
  lemma InitialTabChoice(s: Schedule, dayIndex: int)
    requires 0 <= dayIndex < 7
    ensures var tab := InitialTab(s, dayIndex);
      var today := GetToday(dayIndex);
      (HasClasses(s, today) ==> tab == today) &&
      (!HasClasses(s, today) && HasSchedule(s) ==>
        HasClasses(s, tab) && forall k :: 0 <= k < DayIndex(tab) ==> !HasClasses(s, AllDays[k])) &&
      (!HasSchedule(s) ==> tab == today)
  {
    var today := GetToday(dayIndex);
    if !HasClasses(s, today) && HasSchedule(s) {
      var d :| d in s && |s[d]| > 0;
      IndexOfDay(DayIndex(d));
    }
  }

  /** `hasSchedule` holds exactly when the search over `ALL_DAYS` finds a day with classes:
      the dashboard shows this view only when the search cannot come back empty. */
  lemma HasScheduleFindsDay(s: Schedule)
    ensures HasSchedule(s) <==> FirstDayWithClasses(s, 0).Some?
  {
    if HasSchedule(s) {
      var d :| d in s && |s[d]| > 0;
      assert HasClasses(s, AllDays[DayIndex(d)]);
    }
  }

  /** The tab opens on a day with classes whenever some day has classes. */
  lemma InitialTabHasClasses(s: Schedule, dayIndex: int)
    requires 0 <= dayIndex < 7 && HasSchedule(s)
    ensures HasClasses(s, InitialTab(s, dayIndex))
  {
    InitialTabChoice(s, dayIndex);
  }
}
