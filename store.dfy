/** The schedule store: the weekly schedule the app keeps, loaded once from storage, replaced
    by an import, and edited one class at a time; every change but clearing ends in
    `processSchedule`. */
module Store {
  import opened Js
  import opened Types
  import opened Utils
  import opened KeyOrder
  import opened Process

  // ----- Loading -----

  /** `if (!parsed[day]) parsed[day] = []` for each day: a missing day gets an empty list. */
  function FillDays(parsed: Schedule): (r: Schedule)
    ensures HasAllDays(r)
    ensures forall d :: d in parsed ==> r[d] == parsed[d]
    ensures forall d :: d !in parsed ==> r[d] == []
  {
    var r := map d: Day | d in AllDays :: DayList(parsed, d);
    forall d: Day ensures d in r && r[d] == DayList(parsed, d) { EveryDayListed(d); }
    r
  }

  /** The schedule after loading: the stored one with its days filled in and processed, or the
      empty schedule when nothing readable is stored. */
  function LoadedSchedule(stored: Option<Schedule>): (r: Schedule)
    ensures HasAllDays(r)
  {
    match stored
    case None => EmptySchedule()
    case Some(parsed) => NormalizeSchedule(FillDays(parsed))
  }

  /** `ALL_DAYS.forEach(day => { if (!parsed[day]) parsed[day] = []; })`. */
  method FillIn(parsed: Schedule) returns (filled: Schedule)
    ensures filled == FillDays(parsed)
  {
    filled := parsed;
    for n := 0 to |AllDays|
      invariant forall d: Day :: DayIndex(d) < n ==> d in filled
      invariant forall d: Day :: DayList(filled, d) == DayList(parsed, d)
    {
      var day := AllDays[n];
      IndexOfDay(n);
      if day !in filled {
        filled := filled[day := []];
      }
    }
    FilledAll(filled, parsed);
  }

  /** A schedule that has every day, each with its list in `parsed`, is the filled schedule. */
  lemma FilledAll(filled: Schedule, parsed: Schedule)
    requires forall d: Day :: DayIndex(d) < |AllDays| ==> d in filled
    requires forall d: Day :: DayList(filled, d) == DayList(parsed, d)
    ensures filled == FillDays(parsed)
  {
    forall d: Day
      ensures d in filled && filled[d] == FillDays(parsed)[d]
    {
      assert DayIndex(d) < |AllDays|;
    }
    SameDays(filled, FillDays(parsed));
  }

  /** Filling in the missing days changes nothing `processSchedule` produces, since it reads a
      missing day as an empty one. */
  lemma FillDaysRedundant(parsed: Schedule)
    ensures NormalizeSchedule(FillDays(parsed)) == NormalizeSchedule(parsed)
  {
    var filled := FillDays(parsed);
    forall d: Day
      ensures DayList(filled, d) == DayList(parsed, d)
    {
    }
    forall d: Day
      ensures NormalizeSchedule(filled)[d] == NormalizeSchedule(parsed)[d]
    {
      NormalizedDay(filled, d);
      NormalizedDay(parsed, d);
    }
    SameDays(NormalizeSchedule(filled), NormalizeSchedule(parsed));
  }

  // ----- Elapsed time -----

  /** `(endH - startH) * 60 + (endM - startM)`, with one day added when it is negative. */
  function Elapsed(start: int, end: int): int
  {
    var d := end - start;
    if d < 0 then d + MinutesPerDay else d
  }

  /** Between two times of one day, the elapsed time is the difference modulo a day. */
  lemma ElapsedInDay(start: int, end: int)
    requires 0 <= start < MinutesPerDay && 0 <= end < MinutesPerDay
    ensures Elapsed(start, end) == (end - start) % MinutesPerDay
    ensures 0 <= Elapsed(start, end) < MinutesPerDay
  {
  }

  /** The elapsed time of two numbers that may be NaN, as JavaScript's arithmetic gives it. */
  function ElapsedNum(start: Num, end: Num): (r: Num)
    ensures r.Int? <==> start.Int? && end.Int?
  {
    if start.Int? && end.Int? then Int(Elapsed(start.value, end.value)) else NaN
  }

  // ----- Import -----

  /** A record the timetable reader hands to `setFullSchedule`: a class without id, alarm
      flag and consecutive flag; the day is any text, and an absent end time is "". */
  datatype RawClass = RawClass(
    subject: string,
    roomNumber: string,
    duration: string,
    startTime: string,
    endTime: string,
    dayOfWeek: string,
    isFreePeriod: bool)

  /** What the import does with one record: skip it, stop with an exception, or push a class
      onto a day. */
  datatype Admission = Skipped | Throws | Admitted(day: Day, cls: Class)

  /** The end of an imported record as 24-hour text. A record with a duration and no end time
      ends `length` minutes after its start; date-fns throws on the invalid date that a NaN
      start or length gives. `endKey` is the record's end time converted to 24-hour text. */
  datatype EndText = NoEnd | InvalidDate | EndAt(text: string)

  function ImportEnd(r: RawClass, start: Num, length: Num, endKey: string): (e: EndText)
    ensures e.NoEnd? <==> r.duration == "" && r.endTime == ""
    ensures e.InvalidDate? <==> r.duration != "" && r.endTime == "" && (start.NaN? || length.NaN?)
  {
    if r.duration != "" && r.endTime == "" then
      if start.Int? && length.Int? then EndAt(Format24((start.value + length.value) % MinutesPerDay))
      else InvalidDate
    else if r.endTime != "" then EndAt(endKey)
    else NoEnd
  }

  /** The body of the import's `forEach` for one record; `nonce` stands for `Math.random()`. */
  function Admit(r: RawClass, nonce: string): Admission
  {
    match DayFromName(r.dayOfWeek)
    case None => Skipped
    case Some(day) =>
      if r.startTime == "" then Skipped
      else
        var start := KeyMinutes(ConvertTo24Hour(r.startTime));
        var length := ParseInt(FirstWord(r.duration));
        AdmitFrom(r, day, nonce, ImportEnd(r, start, length, ConvertTo24Hour(r.endTime)), start)
  }

  /** The rest of the body, once the record's day is known and its start and end read. */
  function AdmitFrom(r: RawClass, day: Day, nonce: string, endText: EndText, start: Num): Admission
  {
    match endText
    case NoEnd => Skipped
    case InvalidDate => Throws
    case EndAt(end24) => AdmitAt(r, day, nonce, end24, start, KeyMinutes(end24))
  }

  /** The record is dropped when its start or its end `end24`, read as `end`, is NaN. */
  function AdmitAt(r: RawClass, day: Day, nonce: string, end24: string, start: Num, end: Num): Admission
  {
    if start.NaN? || end.NaN? then Skipped
    else Admitted(day, ImportedClass(r, day, nonce, Elapsed(start.value, end.value), end24))
  }

  /** The class pushed for a kept record. */
  function ImportedClass(r: RawClass, day: Day, nonce: string, minutes: int, end24: string): Class
  {
    Class(
      id := r.dayOfWeek + "-" + r.startTime + "-" + r.subject + "-" + nonce,
      subject := r.subject,
      roomNumber := r.roomNumber,
      duration := FormatDuration(Int(minutes)),
      startTime := r.startTime,
      endTime := if r.endTime != "" then r.endTime else FormatTo12Hour(end24),
      dayOfWeek := day,
      alarmEnabled := true,
      isConsecutive := false,
      isFreePeriod := r.isFreePeriod)
  }

  /** What the import does with each record; `nonce(i)` is the random part of the id of
      record `i`. */
  function Admissions(records: seq<RawClass>, nonce: nat -> string): (a: seq<Admission>)
    ensures |a| == |records|
  {
    seq(|records|, i requires 0 <= i < |records| => Admit(records[i], nonce(i)))
  }

  /** The schedule the loop builds from the admissions, pushing each admitted class onto its
      day, or None once one of them throws. */
  function Build(admissions: seq<Admission>): (r: Option<Schedule>)
    ensures r.Some? ==> HasAllDays(r.value)
    decreases |admissions|
  {
    if admissions == [] then Some(EmptySchedule())
    else
      var n := |admissions| - 1;
      match Build(admissions[..n])
      case None => None
      case Some(s) =>
        match admissions[n]
        case Skipped => Some(s)
        case Throws => None
        case Admitted(day, c) => Some(s[day := s[day] + [c]])
  }

  /** The schedule `setFullSchedule` builds before processing it, or None when it throws. */
  function Imported(records: seq<RawClass>, nonce: nat -> string): Option<Schedule>
  {
    Build(Admissions(records, nonce))
  }

  /** The classes admitted for `day`, in order. */
  function AdmittedOn(admissions: seq<Admission>, day: Day): seq<Class>
    decreases |admissions|
  {
    if admissions == [] then []
    else
      var n := |admissions| - 1;
      var a := admissions[n];
      AdmittedOn(admissions[..n], day) + (if a.Admitted? && a.day == day then [a.cls] else [])
  }

  /** Each day of a build that succeeds lists exactly the classes admitted for it, in order. */
  lemma {:induction false} BuildByDay(admissions: seq<Admission>, day: Day)
    requires Build(admissions).Some?
    ensures Build(admissions).value[day] == AdmittedOn(admissions, day)
    decreases |admissions|
  {
    if admissions != [] {
      BuildByDay(admissions[..|admissions| - 1], day);
    }
  }

  /** The build fails exactly when one of the records throws. */
  lemma {:induction false} BuildThrowsIff(admissions: seq<Admission>)
    ensures Build(admissions).None? <==> Throws in admissions
    decreases |admissions|
  {
    if admissions != [] {
      var n := |admissions| - 1;
      BuildThrowsIff(admissions[..n]);
      assert admissions == admissions[..n] + [admissions[n]];
    }
  }

  /** Once a prefix of the admissions throws, the whole build does. */
  lemma {:induction false} BuildStaysFailed(admissions: seq<Admission>, k: nat)
    requires k <= |admissions| && Build(admissions[..k]).None?
    ensures Build(admissions).None?
    decreases |admissions| - k
  {
    if k < |admissions| {
      assert admissions[..k + 1][..k] == admissions[..k];
      BuildStaysFailed(admissions, k + 1);
    } else {
      assert admissions[..k] == admissions;
    }
  }

  /** A record is dropped when its day is not one of the seven names, when it has no start
      time, or when it has neither an end time nor a duration. */
  lemma AdmitSkips(r: RawClass, nonce: string)
    requires DayFromName(r.dayOfWeek).None? || r.startTime == "" || (r.endTime == "" && r.duration == "")
    ensures Admit(r, nonce).Skipped?
  {
  }

  /** A record with an end time is dropped, never fatal, when its start or end is not a time. */
  lemma AdmitSkipsNaN(r: RawClass, nonce: string)
    requires DayFromName(r.dayOfWeek).Some? && r.startTime != "" && r.endTime != ""
    requires KeyMinutes(ConvertTo24Hour(r.startTime)).NaN? || KeyMinutes(ConvertTo24Hour(r.endTime)).NaN?
    ensures Admit(r, nonce).Skipped?
  {
  }

  /** A kept record becomes a class of its own day with its alarm on, not consecutive, its
      start time as given, its end time as given or derived, and the id built from its day,
      start, subject and nonce. */
  lemma AdmittedClass(r: RawClass, nonce: string)
    requires Admit(r, nonce).Admitted?
    ensures var a := Admit(r, nonce);
      DayName(a.day) == r.dayOfWeek && a.cls.dayOfWeek == a.day &&
      a.cls.alarmEnabled && !a.cls.isConsecutive && a.cls.startTime == r.startTime &&
      a.cls.subject == r.subject && a.cls.roomNumber == r.roomNumber &&
      (r.endTime != "" ==> a.cls.endTime == r.endTime) &&
      a.cls.id == r.dayOfWeek + "-" + r.startTime + "-" + r.subject + "-" + nonce
  {
  }

  /** A record with an end time whose two times read as minutes `start` and `end` is kept,
      and its duration is the time from start to end, a day added when it is negative. */
  lemma AdmittedWithEnd(r: RawClass, nonce: string, start: int, end: int)
    requires DayFromName(r.dayOfWeek).Some? && r.startTime != "" && r.endTime != ""
    requires KeyMinutes(ConvertTo24Hour(r.startTime)) == Int(start)
    requires KeyMinutes(ConvertTo24Hour(r.endTime)) == Int(end)
    ensures Admit(r, nonce).Admitted?
    ensures Admit(r, nonce).cls.duration == FormatDuration(Int(Elapsed(start, end)))
  {
    var day := DayFromName(r.dayOfWeek).value;
    var endKey := ConvertTo24Hour(r.endTime);
    var endText := ImportEnd(r, Int(start), ParseInt(FirstWord(r.duration)), endKey);
    assert Admit(r, nonce) == AdmitFrom(r, day, nonce, endText, Int(start));
    assert endText == EndAt(endKey);
  }

  /** The duration of a class imported with both times in 12-hour form is the time from its
      start to its end modulo a day. */
  lemma AdmittedDuration(r: RawClass, nonce: string, start: int, end: int)
    requires 0 <= start < MinutesPerDay && 0 <= end < MinutesPerDay
    requires DayFromName(r.dayOfWeek).Some?
    requires r.startTime == Format12(start) && r.endTime == Format12(end)
    ensures Admit(r, nonce).Admitted?
    ensures Admit(r, nonce).cls.duration == FormatDuration(Int((end - start) % MinutesPerDay))
  {
    ConvertTo24HourOfFormat12(start);
    ConvertTo24HourOfFormat12(end);
    KeyMinutesOfFormat24(start);
    KeyMinutesOfFormat24(end);
    ElapsedInDay(start, end);
    AdmittedWithEnd(r, nonce, start, end);
  }

  /** A record with a duration and no end time, as the timetable reader gives them, ends the
      number at the head of its duration in minutes after its start; that number is also its
      new duration, and its end time is written in 12-hour form. */
  lemma AdmittedWithDuration(r: RawClass, nonce: string, start: int, n: int)
    requires 0 <= start < MinutesPerDay && 0 <= n < MinutesPerDay
    requires DayFromName(r.dayOfWeek).Some? && r.startTime != ""
    requires KeyMinutes(ConvertTo24Hour(r.startTime)) == Int(start)
    requires r.endTime == "" && r.duration != "" && ParseInt(FirstWord(r.duration)) == Int(n)
    ensures Admit(r, nonce).Admitted?
    ensures Admit(r, nonce).cls.duration == FormatDuration(Int(n))
    ensures Admit(r, nonce).cls.endTime == Format12((start + n) % MinutesPerDay)
  {
    var day := DayFromName(r.dayOfWeek).value;
    var endText := ImportEnd(r, Int(start), Int(n), ConvertTo24Hour(r.endTime));
    assert Admit(r, nonce) == AdmitFrom(r, day, nonce, endText, Int(start));
    ImportEndOfDuration(r, start, n, ConvertTo24Hour(r.endTime));
    AdmitFromWithDuration(r, day, nonce, start, n, endText);
  }

  lemma ImportEndOfDuration(r: RawClass, start: int, n: int, endKey: string)
    requires r.endTime == "" && r.duration != ""
    ensures ImportEnd(r, Int(start), Int(n), endKey) == EndAt(Format24((start + n) % MinutesPerDay))
  {
  }

  /** The same for a start written in 12-hour form, as the timetable reader writes it. */
  lemma AdmittedWithDuration12(r: RawClass, nonce: string, start: int, n: int)
    requires 0 <= start < MinutesPerDay && 0 <= n < MinutesPerDay
    requires DayFromName(r.dayOfWeek).Some? && r.startTime == Format12(start)
    requires r.endTime == "" && r.duration != "" && ParseInt(FirstWord(r.duration)) == Int(n)
    ensures Admit(r, nonce).Admitted?
    ensures Admit(r, nonce).cls.duration == FormatDuration(Int(n))
    ensures Admit(r, nonce).cls.endTime == Format12((start + n) % MinutesPerDay)
  {
    ConvertTo24HourOfFormat12(start);
    KeyMinutesOfFormat24(start);
    AdmittedWithDuration(r, nonce, start, n);
  }

  lemma AdmitFromWithDuration(r: RawClass, day: Day, nonce: string, start: int, n: int, endText: EndText)
    requires 0 <= start < MinutesPerDay && 0 <= n < MinutesPerDay && r.endTime == ""
    requires endText == EndAt(Format24((start + n) % MinutesPerDay))
    ensures AdmitFrom(r, day, nonce, endText, Int(start)).Admitted?
    ensures AdmitFrom(r, day, nonce, endText, Int(start)).cls.duration == FormatDuration(Int(n))
    ensures AdmitFrom(r, day, nonce, endText, Int(start)).cls.endTime == Format12((start + n) % MinutesPerDay)
  {
    var end := (start + n) % MinutesPerDay;
    KeyMinutesOfFormat24(end);
    AdmitFromEnd(r, day, nonce, Format24(end), start, end);
    ElapsedAfter(start, n);
    FormatTo12HourOfFormat24(end);
  }

  /** A record whose end reads as minutes `end` is admitted with the time since its start. */
  lemma AdmitFromEnd(r: RawClass, day: Day, nonce: string, end24: string, start: int, end: int)
    requires KeyMinutes(end24) == Int(end)
    ensures AdmitFrom(r, day, nonce, EndAt(end24), Int(start)) ==
      Admitted(day, ImportedClass(r, day, nonce, Elapsed(start, end), end24))
  {
    assert AdmitFrom(r, day, nonce, EndAt(end24), Int(start)) == AdmitAt(r, day, nonce, end24, Int(start), Int(end));
  }

  lemma ElapsedAfter(start: int, n: int)
    requires 0 <= start < MinutesPerDay && 0 <= n < MinutesPerDay
    ensures Elapsed(start, (start + n) % MinutesPerDay) == n
  {
  }

  /** One record that throws makes the whole import throw. */
  lemma ImportThrows(records: seq<RawClass>, nonce: nat -> string, i: int)
    requires 0 <= i < |records| && Admit(records[i], nonce(i)).Throws?
    ensures Imported(records, nonce).None?
  {
    var admissions := Admissions(records, nonce);
    assert admissions[i] == Throws;
    BuildThrowsIff(admissions);
  }

  /** One more admission: a skip keeps the build, an admitted class is pushed onto its day,
      and a throw ends it. */
  lemma BuildPush(admissions: seq<Admission>, i: int, s: Schedule)
    requires 0 <= i < |admissions| && Build(admissions[..i]) == Some(s)
    ensures HasAllDays(s)
    ensures admissions[i].Skipped? ==> Build(admissions[..i + 1]) == Some(s)
    ensures admissions[i].Throws? ==> Build(admissions[..i + 1]).None?
    ensures admissions[i].Admitted? ==>
      Build(admissions[..i + 1]) == Some(s[admissions[i].day := s[admissions[i].day] + [admissions[i].cls]])
  {
    assert admissions[..i + 1][..i] == admissions[..i];
  }

  /** The import's loop: each record is admitted, skipped or ends the import by throwing. */
  method BuildImport(records: seq<RawClass>, nonce: nat -> string) returns (built: Option<Schedule>)
    ensures built == Imported(records, nonce)
  {
    ghost var admissions := Admissions(records, nonce);
    var newSchedule := EmptySchedule();
    for i := 0 to |records|
      invariant Build(admissions[..i]) == Some(newSchedule)
    {
      var admission := Admit(records[i], nonce(i));
      assert admission == admissions[i];
      BuildPush(admissions, i, newSchedule);
      match admission {
        case Skipped =>
        case Throws =>
          BuildStaysFailed(admissions, i + 1);
          return None;
        case Admitted(day, c) =>
          newSchedule := newSchedule[day := newSchedule[day] + [c]];
      }
    }
    assert admissions[..|records|] == admissions;
    built := Some(newSchedule);
  }

  // ----- Editing -----

  /** `xs.filter(c => c.id !== id)`. */
  function WithoutId(xs: seq<Class>, id: string): (r: seq<Class>)
    ensures forall c :: c in r <==> c in xs && c.id != id
  {
    var keep := (c: Class) => c.id != id;
    forall c ensures c in Filter(keep, xs) <==> c in xs && c.id != id {
      FilterMember(keep, xs, c);
    }
    Filter(keep, xs)
  }

  /** The edited class with its duration recomputed from its start and end times. */
  function WithDuration(updated: Class): Class
  {
    var start := KeyMinutes(ConvertTo24Hour(updated.startTime));
    var end := KeyMinutes(ConvertTo24Hour(updated.endTime));
    updated.(duration := FormatDuration(ElapsedNum(start, end)))
  }

  /** The schedule `updateClass` hands to `processSchedule`: the id taken out of every day and
      the edited class appended to its own day. */
  function Staged(prev: Schedule, updated: Class): (r: Schedule)
    requires HasAllDays(prev)
    ensures HasAllDays(r)
  {
    var removed := map d: Day | d in AllDays :: WithoutId(prev[d], updated.id);
    forall d: Day ensures d in removed { EveryDayListed(d); }
    removed[updated.dayOfWeek := removed[updated.dayOfWeek] + [WithDuration(updated)]]
  }

  /** `updateClass`: rejected, leaving the schedule as it was, when either time does not
      convert; otherwise the staged schedule, processed. */
  function UpdatedSchedule(prev: Schedule, updated: Class): (r: Schedule)
    requires HasAllDays(prev)
    ensures HasAllDays(r)
  {
    if ConvertTo24Hour(updated.startTime) == "" || ConvertTo24Hour(updated.endTime) == "" then prev
    else NormalizeSchedule(Staged(prev, updated))
  }

  /** After staging, the id is on one day only, the class's own, and there it is the edited
      class with its new duration, exactly once; every other class is still where it was. */
  lemma StagedOnce(prev: Schedule, updated: Class)
    requires HasAllDays(prev)
    ensures var s := Staged(prev, updated);
      WithDuration(updated) in s[updated.dayOfWeek] &&
      (forall d: Day, c: Class :: c in s[d] && c.id == updated.id ==> d == updated.dayOfWeek && c == WithDuration(updated)) &&
      (forall d: Day, c: Class :: c in prev[d] && c.id != updated.id ==> c in s[d]) &&
      multiset(s[updated.dayOfWeek])[WithDuration(updated)] == 1
  {
    var kept := WithoutId(prev[updated.dayOfWeek], updated.id);
    assert WithDuration(updated) !in kept;
    assert multiset(kept)[WithDuration(updated)] == 0;
    assert Staged(prev, updated)[updated.dayOfWeek] == kept + [WithDuration(updated)];
  }

  /** The recomputed duration of a class with 12-hour times is the time from its start to its
      end modulo a day; the other fields are the edited ones. */
  lemma UpdatedDuration(updated: Class, start: int, end: int)
    requires 0 <= start < MinutesPerDay && 0 <= end < MinutesPerDay
    requires updated.startTime == Format12(start) && updated.endTime == Format12(end)
    ensures WithDuration(updated) == updated.(duration := FormatDuration(Int((end - start) % MinutesPerDay)))
  {
    ConvertTo24HourOfFormat12(start);
    ConvertTo24HourOfFormat12(end);
    KeyMinutesOfFormat24(start);
    KeyMinutesOfFormat24(end);
    ElapsedInDay(start, end);
  }

  /** After an update no other day holds a class with the edited id. */
  lemma UpdatedIdOnOneDay(prev: Schedule, updated: Class, d: Day, i: int)
    requires HasAllDays(prev) && d != updated.dayOfWeek
    requires ConvertTo24Hour(updated.startTime) != "" && ConvertTo24Hour(updated.endTime) != ""
    requires 0 <= i < |UpdatedSchedule(prev, updated)[d]|
    requires !UpdatedSchedule(prev, updated)[d][i].isFreePeriod
    ensures UpdatedSchedule(prev, updated)[d][i].id != updated.id
  {
    var s := Staged(prev, updated);
    NormalizedDay(s, d);
    var c := NormalizedFrom(d, s[d], i);
    StagedOnce(prev, updated);
  }

  /** `deleteClass`: the entries with the id are taken out of the named day only, and the
      schedule is processed. */
  function DeletedSchedule(prev: Schedule, classId: string, day: Day): (r: Schedule)
    requires HasAllDays(prev)
    ensures HasAllDays(r)
  {
    NormalizeSchedule(prev[day := WithoutId(prev[day], classId)])
  }

  /** After a delete the named day holds no class with the id; every other day is its old list
      processed again. */
  lemma DeletedFromDay(prev: Schedule, classId: string, day: Day, i: int)
    requires HasAllDays(prev)
    requires 0 <= i < |DeletedSchedule(prev, classId, day)[day]|
    requires !DeletedSchedule(prev, classId, day)[day][i].isFreePeriod
    ensures DeletedSchedule(prev, classId, day)[day][i].id != classId
  {
    var s := prev[day := WithoutId(prev[day], classId)];
    NormalizedDay(s, day);
    var c := NormalizedFrom(day, s[day], i);
  }

  lemma DeleteLeavesOtherDays(prev: Schedule, classId: string, day: Day, d: Day)
    requires HasAllDays(prev) && d != day
    ensures DeletedSchedule(prev, classId, day)[d] == Normalize(d, prev[d])
  {
    var staged := prev[day := WithoutId(prev[day], classId)];
    assert DayList(staged, d) == prev[d];
    NormalizedDay(staged, d);
  }

  // ----- The store -----

  /** The state `useScheduleStore` keeps: the schedule and whether it has been loaded. */
  class ScheduleStore {
    var schedule: Schedule
    var isLoaded: bool

    ghost predicate Valid()
      reads this
    {
      HasAllDays(schedule)
    }

    /** The first render: seven empty days, not loaded yet. */
    constructor()
      ensures Valid() && schedule == EmptySchedule() && !isLoaded
    {
      schedule := EmptySchedule();
      isLoaded := false;
    }

    /** The load effect: `stored` is the parsed stored schedule, or None when nothing is
        stored or it cannot be read. */
    method Load(stored: Option<Schedule>)
      modifies this
      ensures Valid() && isLoaded && schedule == LoadedSchedule(stored)
    {
      match stored {
        case None =>
          schedule := EmptySchedule();
        case Some(parsed) =>
          var filled := FillIn(parsed);
          schedule := ProcessSchedule(filled);
      }
      isLoaded := true;
    }

    /** `setFullSchedule`: when the import throws the schedule is left as it was and false
        is returned. */
    method SetFullSchedule(records: seq<RawClass>, nonce: nat -> string) returns (imported: bool)
      requires Valid()
      modifies this
      ensures Valid() && isLoaded == old(isLoaded)
      ensures imported <==> Imported(records, nonce).Some?
      ensures imported ==> schedule == NormalizeSchedule(Imported(records, nonce).value)
      ensures !imported ==> schedule == old(schedule)
    {
      var built := BuildImport(records, nonce);
      if built.None? {
        return false;
      }
      schedule := ProcessSchedule(built.value);
      imported := true;
    }

    method UpdateClass(updated: Class)
      requires Valid()
      modifies this
      ensures Valid() && isLoaded == old(isLoaded)
      ensures schedule == UpdatedSchedule(old(schedule), updated)
    {
      var startTime24 := ConvertTo24Hour(updated.startTime);
      var endTime24 := ConvertTo24Hour(updated.endTime);
      if startTime24 == "" || endTime24 == "" {
        return;
      }
      schedule := ProcessSchedule(Staged(schedule, updated));
    }

    method DeleteClass(classId: string, day: Day)
      requires Valid()
      modifies this
      ensures Valid() && isLoaded == old(isLoaded)
      ensures schedule == DeletedSchedule(old(schedule), classId, day)
    {
      schedule := ProcessSchedule(schedule[day := WithoutId(schedule[day], classId)]);
    }

    method ClearSchedule()
      modifies this
      ensures Valid() && isLoaded == old(isLoaded)
      ensures schedule == EmptySchedule()
    {
      schedule := EmptySchedule();
    }
  }
}
