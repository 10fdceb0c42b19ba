/** The alarm manager: once a minute it scans today's classes and decides whether to raise a
    full-screen reminder, either ten minutes before a class starts or in the last minutes of a
    class that runs straight into the next one. The two AI services it asks are parameters:
    each is a function from the request to its reply or to a failure. */
module Alarms {
  import opened Js
  import opened Types
  import opened Utils

  const MsPerMinute := 60000
  const MsPerDay := MinutesPerDay * MsPerMinute

  /** The clock at a tick: `getDay()` (0 is Sunday) and the milliseconds since midnight. */
  datatype Moment = Moment(weekday: int, millis: int)

  predicate ValidMoment(now: Moment)
  {
    0 <= now.weekday < 7 && 0 <= now.millis < MsPerDay
  }

  // ----- The two services -----

  /** What the alarm service is told; the location the service asks for is never sent. */
  datatype AlarmRequest = AlarmRequest(className: string, roomNumber: string, startTime: string, currentTime: string)

  /** The alarm service's answer, or the rejection of its promise. `alarmTime` is "" when the
      optional field is absent. */
  datatype AlarmReply = AlarmFailed | AlarmAdvice(shouldSetAlarm: bool, alarmTime: string, reason: string)

  type AlarmService = AlarmRequest -> AlarmReply

  datatype ClassBrief = ClassBrief(subject: string, room: string, time: string)

  /** What the consecutive-class service is told: the ending class with its end time, the next
      class with its start time and an empty end time. */
  datatype NoticeRequest = NoticeRequest(isConsecutive: bool, currentClass: ClassBrief, nextClass: ClassBrief, nextEnd: string)

  datatype NoticeType = AlarmNotice | SoftNotification | FullScreenReminder | NoNotice

  datatype NoticeReply = NoticeFailed | Notice(notificationType: NoticeType, message: string)

  type NoticeService = NoticeRequest -> NoticeReply

  // ----- What a scan produces -----

  datatype ReminderKind = AlarmReminder | ConsecutiveReminder

  datatype ActiveReminder = ActiveReminder(kind: ReminderKind, classInfo: Class, message: string)

  /** The toasts a scan shows: the soft "Next Class" notice, and the report of a failure. */
  datatype Toast = NextClassToast(message: string) | AiErrorToast

  /** What one pass of the loop body does: go on to the next class, perhaps after a toast, or
      set the reminder and stop. */
  datatype Outcome = Continue(toast: Option<Toast>) | Remind(reminder: ActiveReminder)

  datatype ScanResult = ScanResult(reminder: Option<ActiveReminder>, toasts: seq<Toast>)

  // ----- Time arithmetic -----

  /** `differenceInMinutes(later, earlier)`: the milliseconds between them in whole minutes,
      truncated toward zero as `Math.trunc` does. */
  function MinutesBetween(later: int, earlier: int): (q: int)
    ensures later >= earlier ==> 0 <= q * MsPerMinute <= later - earlier < q * MsPerMinute + MsPerMinute
    ensures later < earlier ==> q * MsPerMinute - MsPerMinute < later - earlier <= q * MsPerMinute <= 0
  {
    var d := later - earlier;
    if d >= 0 then d / MsPerMinute else -((-d) / MsPerMinute)
  }

  /** The schedule's list for the weekday of the tick. */
  function TodayClasses(s: Schedule, now: Moment): seq<Class>
    requires ValidMoment(now)
  {
    DayList(s, DayOfJsIndex(now.weekday))
  }

  /** The first entry after `index` that is not a free period, as `find` gives it. */
  function NextNonFree(today: seq<Class>, index: int): (r: Option<int>)
    requires 0 <= index
    ensures r.Some? ==>
      index < r.value < |today| && !today[r.value].isFreePeriod &&
      forall k :: index < k < r.value ==> today[k].isFreePeriod
    ensures r.None? ==> forall k :: index < k < |today| ==> today[k].isFreePeriod
    decreases |today| - index
  {
    if index + 1 >= |today| then None
    else if !today[index + 1].isFreePeriod then Some(index + 1)
    else NextNonFree(today, index + 1)
  }

  // ----- One pass of the loop body -----

  /** The body of the scan for `today[index]`, inside its `try`: free periods and classes with
      the alarm off are skipped, and so is a start time that does not convert. */
  function Visit(today: seq<Class>, index: int, now: Moment, alarms: AlarmService, notices: NoticeService): Outcome
    requires 0 <= index < |today| && ValidMoment(now)
  {
    var c := today[index];
    if c.isFreePeriod || !c.alarmEnabled then Continue(None)
    else
      var start24 := ConvertTo24Hour(c.startTime);
      if start24 == "" then Continue(None)
      else PreClass(today, index, now, alarms, notices, start24, Parse24(start24))
  }

  /** The pre-class check, once the start time is converted to `start24` and parsed as `start`
      (None for an invalid date). */
  function PreClass(today: seq<Class>, index: int, now: Moment, alarms: AlarmService, notices: NoticeService,
                    start24: string, start: Option<int>): Outcome
    requires 0 <= index < |today| && ValidMoment(now)
  {
    var c := today[index];
    match start
    case None => Continue(None)
    case Some(s) =>
      if 10 <= MinutesBetween(s * MsPerMinute, now.millis) < 11 then
        match alarms(AlarmRequest(c.subject, c.roomNumber, start24, Format24(now.millis / MsPerMinute)))
        case AlarmFailed => Continue(Some(AiErrorToast))
        case AlarmAdvice(should, alarmTime, reason) =>
          if should && alarmTime != "" then Remind(ActiveReminder(AlarmReminder, c, reason))
          else ConsecutiveCheck(today, index, now, notices)
      else ConsecutiveCheck(today, index, now, notices)
  }

  /** The second half of the body: the check near the end of a class marked consecutive. */
  function ConsecutiveCheck(today: seq<Class>, index: int, now: Moment, notices: NoticeService): Outcome
    requires 0 <= index < |today|
  {
    var c := today[index];
    if !c.isConsecutive then Continue(None)
    else
      var end24 := ConvertTo24Hour(c.endTime);
      if end24 == "" then Continue(None)
      else NearEnd(today, index, now, notices, Parse24(end24))
  }

  /** The consecutive check, once the end time is parsed as `end`. */
  function NearEnd(today: seq<Class>, index: int, now: Moment, notices: NoticeService, end: Option<int>): Outcome
    requires 0 <= index < |today|
  {
    match end
    case None => Continue(None)
    case Some(e) =>
      if -2 <= MinutesBetween(now.millis, e * MsPerMinute) <= 0 then
        match NextNonFree(today, index)
        case None => Continue(None)
        case Some(j) =>
          NoticeFor(today[index], today[j], notices, Parse12(today[j].startTime), Parse12(today[index].endTime))
      else Continue(None)
  }

  /** Asking the consecutive-class service about the ending class `c` and the next class, once
      the next start and the current end are parsed as 12-hour times. */
  function NoticeFor(c: Class, next: Class, notices: NoticeService, nextStart: Option<int>, currentEnd: Option<int>): Outcome
    requires nextStart.Some? ==> 0 <= nextStart.value < MinutesPerDay
    requires currentEnd.Some? ==> 0 <= currentEnd.value < MinutesPerDay
  {
    if nextStart.Some? && currentEnd.Some? then
      match notices(Briefing(c, next, currentEnd.value, nextStart.value))
      case NoticeFailed => Continue(Some(AiErrorToast))
      case Notice(kind, message) =>
        if kind == SoftNotification then Continue(Some(NextClassToast(message)))
        else if kind == FullScreenReminder then Remind(ActiveReminder(ConsecutiveReminder, next, message))
        else Continue(None)
    else Continue(None)
  }

  /** The request about `c` ending at `currentEnd` and `next` starting at `nextStart`, both
      written back in 12-hour form. */
  function Briefing(c: Class, next: Class, currentEnd: int, nextStart: int): NoticeRequest
    requires 0 <= currentEnd < MinutesPerDay && 0 <= nextStart < MinutesPerDay
  {
    NoticeRequest(true, ClassBrief(c.subject, c.roomNumber, Format12(currentEnd)),
                  ClassBrief(next.subject, next.roomNumber, Format12(nextStart)), "")
  }

  // ----- The scan -----

  /** The outcome of the loop body for every class of the day. */
  function Outcomes(today: seq<Class>, now: Moment, alarms: AlarmService, notices: NoticeService): (r: seq<Outcome>)
    requires ValidMoment(now)
    ensures |r| == |today|
  {
    seq(|today|, k requires 0 <= k < |today| => Visit(today, k, now, alarms, notices))
  }

  /** The scan from `index` on: the toasts shown and the reminder that stops it, if any. */
  function Scan(outcomes: seq<Outcome>, index: nat): ScanResult
    decreases |outcomes| - index
  {
    if index >= |outcomes| then ScanResult(None, [])
    else
      match outcomes[index]
      case Remind(r) => ScanResult(Some(r), [])
      case Continue(t) =>
        var rest := Scan(outcomes, index + 1);
        ScanResult(rest.reminder, (if t.Some? then [t.value] else []) + rest.toasts)
  }

  /** The `for` loop of `checkAlarms` over today's classes. */
  method ScanToday(today: seq<Class>, now: Moment, alarms: AlarmService, notices: NoticeService)
    returns (reminder: Option<ActiveReminder>, toasts: seq<Toast>)
    requires ValidMoment(now)
    ensures Scan(Outcomes(today, now, alarms, notices), 0) == ScanResult(reminder, toasts)
  {
    ghost var outcomes := Outcomes(today, now, alarms, notices);
    reminder, toasts := None, [];
    for index := 0 to |today|
      invariant reminder.None?
      invariant Scan(outcomes, 0).reminder == Scan(outcomes, index).reminder
      invariant Scan(outcomes, 0).toasts == toasts + Scan(outcomes, index).toasts
    {
      var outcome := CheckClass(today, index, now, alarms, notices);
      ScanStep(outcomes, index, outcome);
      match outcome
      case Remind(r) =>
        reminder := Some(r);
        assert toasts + [] == toasts;
        break;
      case Continue(t) =>
        var toast := if t.Some? then [t.value] else [];
        AppendAssoc(toasts, toast, Scan(outcomes, index + 1).toasts);
        toasts := toasts + toast;
    }
  }

  /** The loop body for `today[index]`: the outcome the scan's specification gives it. */
  method CheckClass(today: seq<Class>, index: int, now: Moment, alarms: AlarmService, notices: NoticeService)
    returns (outcome: Outcome)
    requires 0 <= index < |today| && ValidMoment(now)
    ensures outcome == Outcomes(today, now, alarms, notices)[index]
  {
    outcome := Visit(today, index, now, alarms, notices);
  }

  /** One step of the scan. */
  lemma ScanStep(outcomes: seq<Outcome>, index: nat, outcome: Outcome)
    requires index < |outcomes| && outcomes[index] == outcome
    ensures outcome.Remind? ==> Scan(outcomes, index) == ScanResult(Some(outcome.reminder), [])
    ensures outcome.Continue? ==>
      Scan(outcomes, index) == ScanResult(Scan(outcomes, index + 1).reminder,
                 (if outcome.toast.Some? then [outcome.toast.value] else []) + Scan(outcomes, index + 1).toasts)
  {
  }

  /** The state `checkAlarms` and the reminder screen share: the active reminder, and the
      toasts shown so far. */
  class AlarmManager {
    var activeReminder: Option<ActiveReminder>
    var shown: seq<Toast>

    constructor()
      ensures activeReminder == None && shown == []
    {
      activeReminder := None;
      shown := [];
    }

    /** One tick: nothing happens before the first clock reading or while a reminder is
        showing; otherwise today's classes are scanned and the first reminder, if any, set. */
    method CheckAlarms(schedule: Schedule, now: Option<Moment>, alarms: AlarmService, notices: NoticeService)
      requires now.Some? ==> ValidMoment(now.value)
      modifies this
      ensures now.None? || old(activeReminder).Some? ==>
        activeReminder == old(activeReminder) && shown == old(shown)
      ensures now.Some? && old(activeReminder).None? ==>
        var scan := Scan(Outcomes(TodayClasses(schedule, now.value), now.value, alarms, notices), 0);
        activeReminder == scan.reminder && shown == old(shown) + scan.toasts
    {
      if now.None? || activeReminder.Some? {
        return;
      }
      var today := TodayClasses(schedule, now.value);
      var found, toasts := ScanToday(today, now.value, alarms, notices);
      shown := shown + toasts;
      if found.Some? {
        activeReminder := found;
      }
    }

    /** The reminder screen's dismiss button. */
    method Dismiss()
      modifies this
      ensures activeReminder == None && shown == old(shown)
    {
      activeReminder := None;
    }
  }

  // ----- Properties -----

  /** The pre-class window: `10 <= differenceInMinutes(start, now) < 11` holds exactly when
      the class starts between ten minutes and eleven minutes (exclusive) from now. */
  lemma PreClassWindow(startMs: int, nowMs: int)
    ensures 10 <= MinutesBetween(startMs, nowMs) < 11 <==>
      10 * MsPerMinute <= startMs - nowMs < 11 * MsPerMinute
  {
    var d := startMs - nowMs;
    var q := MinutesBetween(startMs, nowMs);
    if d >= 0 {
      assert 10 <= q < 11 ==> 10 * MsPerMinute <= q * MsPerMinute <= d < 11 * MsPerMinute;
      if 10 * MsPerMinute <= d < 11 * MsPerMinute {
        assert q * MsPerMinute <= d < 11 * MsPerMinute && d < q * MsPerMinute + MsPerMinute;
      }
    }
  }

  /** The consecutive window: `-2 <= differenceInMinutes(now, end) <= 0` holds exactly when
      now is less than three minutes before the end or less than one minute after it. */
  lemma ConsecutiveWindow(nowMs: int, endMs: int)
    ensures -2 <= MinutesBetween(nowMs, endMs) <= 0 <==>
      -3 * MsPerMinute < nowMs - endMs < MsPerMinute
  {
    var d := nowMs - endMs;
    var q := MinutesBetween(nowMs, endMs);
    if d >= 0 {
      assert q <= 0 ==> d < MsPerMinute;
      assert d < MsPerMinute ==> q * MsPerMinute <= d < MsPerMinute;
    } else {
      assert -2 <= q ==> -3 * MsPerMinute < d;
      assert -3 * MsPerMinute < d ==> -3 * MsPerMinute < q * MsPerMinute;
    }
  }

  /** Free periods and classes with the alarm off never do anything. */
  lemma QuietClasses(today: seq<Class>, index: int, now: Moment, alarms: AlarmService, notices: NoticeService)
    requires 0 <= index < |today| && ValidMoment(now)
    requires today[index].isFreePeriod || !today[index].alarmEnabled
    ensures Visit(today, index, now, alarms, notices) == Continue(None)
  {
  }

  /** The consecutive check never sets a pre-class reminder. */
  lemma ConsecutiveKind(today: seq<Class>, index: int, now: Moment, notices: NoticeService)
    requires 0 <= index < |today|
    ensures ConsecutiveCheck(today, index, now, notices).Remind? ==>
      ConsecutiveCheck(today, index, now, notices).reminder.kind == ConsecutiveReminder
  {
  }

  /** The pre-class check sets an alarm reminder exactly when the start is ten to eleven
      minutes ahead and the service says to set an alarm and names its time. */
  lemma PreClassStep(today: seq<Class>, index: int, now: Moment, alarms: AlarmService, notices: NoticeService,
                     start24: string, start: Option<int>)
    requires 0 <= index < |today| && ValidMoment(now)
    ensures
      var c := today[index];
      var o := PreClass(today, index, now, alarms, notices, start24, start);
      var reply := alarms(AlarmRequest(c.subject, c.roomNumber, start24, Format24(now.millis / MsPerMinute)));
      (o.Remind? && o.reminder.kind == AlarmReminder) <==>
      (start.Some? && 10 * MsPerMinute <= start.value * MsPerMinute - now.millis < 11 * MsPerMinute &&
       reply.AlarmAdvice? && reply.shouldSetAlarm && reply.alarmTime != "" &&
       o == Remind(ActiveReminder(AlarmReminder, c, reply.reason)))
  {
    if start.Some? {
      PreClassWindow(start.value * MsPerMinute, now.millis);
    }
    ConsecutiveKind(today, index, now, notices);
  }

  /** A pre-class reminder is set for a class exactly when it is an enabled class whose start
      reads as a 24-hour time ten to eleven minutes ahead, and the alarm service says to set an
      alarm and names its time; the reminder carries the class and the service's reason. */
  lemma PreClassReminder(today: seq<Class>, index: int, now: Moment, alarms: AlarmService, notices: NoticeService)
    requires 0 <= index < |today| && ValidMoment(now)
    ensures
      var c := today[index];
      var start24 := ConvertTo24Hour(c.startTime);
      var o := Visit(today, index, now, alarms, notices);
      var reply := alarms(AlarmRequest(c.subject, c.roomNumber, start24, Format24(now.millis / MsPerMinute)));
      (o.Remind? && o.reminder.kind == AlarmReminder) <==>
      (!c.isFreePeriod && c.alarmEnabled && Parse24(start24).Some? &&
       10 * MsPerMinute <= Parse24(start24).value * MsPerMinute - now.millis < 11 * MsPerMinute &&
       reply.AlarmAdvice? && reply.shouldSetAlarm && reply.alarmTime != "" &&
       o == Remind(ActiveReminder(AlarmReminder, c, reply.reason)))
  {
    var c := today[index];
    var start24 := ConvertTo24Hour(c.startTime);
    PreClassStep(today, index, now, alarms, notices, start24, Parse24(start24));
  }

  /** The alarm service is asked only inside the pre-class window: outside it, any answer the
      service would give leads to the same outcome. */
  lemma AlarmServiceOnlyInWindow(today: seq<Class>, index: int, now: Moment, alarms: AlarmService,
                                 other: AlarmService, notices: NoticeService)
    requires 0 <= index < |today| && ValidMoment(now)
    requires var start := Parse24(ConvertTo24Hour(today[index].startTime));
      start.None? || !(10 * MsPerMinute <= start.value * MsPerMinute - now.millis < 11 * MsPerMinute)
    ensures Visit(today, index, now, alarms, notices) == Visit(today, index, now, other, notices)
  {
    var start := Parse24(ConvertTo24Hour(today[index].startTime));
    if start.Some? {
      PreClassWindow(start.value * MsPerMinute, now.millis);
    }
  }

  /** The consecutive-class service is asked only for a class marked consecutive whose end is
      less than three minutes ahead or less than a minute past, when a later entry that is not
      a free period exists: otherwise any answer it would give leads to the same outcome. */
  lemma ConsecutiveNoticeOnlyInWindow(today: seq<Class>, index: int, now: Moment,
                                      notices: NoticeService, other: NoticeService)
    requires 0 <= index < |today|
    requires var end := Parse24(ConvertTo24Hour(today[index].endTime));
      !today[index].isConsecutive || end.None? || NextNonFree(today, index).None? ||
      !(-3 * MsPerMinute < now.millis - end.value * MsPerMinute < MsPerMinute)
    ensures ConsecutiveCheck(today, index, now, notices) == ConsecutiveCheck(today, index, now, other)
  {
    var end24 := ConvertTo24Hour(today[index].endTime);
    if today[index].isConsecutive && end24 != "" && Parse24(end24).Some? {
      ConsecutiveWindow(now.millis, Parse24(end24).value * MsPerMinute);
    }
  }

  /** The same at the level of the loop body: outside the consecutive case, the notice service
      (its soft-notification toast and its error toast included) plays no part. */
  lemma NoticeServiceOnlyInWindow(today: seq<Class>, index: int, now: Moment, alarms: AlarmService,
                                  notices: NoticeService, other: NoticeService)
    requires 0 <= index < |today| && ValidMoment(now)
    requires var end := Parse24(ConvertTo24Hour(today[index].endTime));
      !today[index].isConsecutive || end.None? || NextNonFree(today, index).None? ||
      !(-3 * MsPerMinute < now.millis - end.value * MsPerMinute < MsPerMinute)
    ensures Visit(today, index, now, alarms, notices) == Visit(today, index, now, alarms, other)
  {
    ConsecutiveNoticeOnlyInWindow(today, index, now, notices, other);
    var c := today[index];
    if !c.isFreePeriod && c.alarmEnabled {
      var start24 := ConvertTo24Hour(c.startTime);
      if start24 != "" {
        PreClassAgrees(today, index, now, alarms, notices, other, start24, Parse24(start24));
      }
    }
  }

  /** The pre-class check depends on the notice service only through the consecutive check. */
  lemma PreClassAgrees(today: seq<Class>, index: int, now: Moment, alarms: AlarmService,
                       notices: NoticeService, other: NoticeService, start24: string, start: Option<int>)
    requires 0 <= index < |today| && ValidMoment(now)
    requires ConsecutiveCheck(today, index, now, notices) == ConsecutiveCheck(today, index, now, other)
    ensures PreClass(today, index, now, alarms, notices, start24, start) ==
      PreClass(today, index, now, alarms, other, start24, start)
  {
    if start.Some? {
      var c := today[index];
      var inWindow := 10 <= MinutesBetween(start.value * MsPerMinute, now.millis) < 11;
      var reply := alarms(AlarmRequest(c.subject, c.roomNumber, start24, Format24(now.millis / MsPerMinute)));
      if inWindow && reply.AlarmAdvice? && !(reply.shouldSetAlarm && reply.alarmTime != "") {
        assert PreClass(today, index, now, alarms, notices, start24, start) == ConsecutiveCheck(today, index, now, notices);
        assert PreClass(today, index, now, alarms, other, start24, start) == ConsecutiveCheck(today, index, now, other);
      }
    }
  }

  /** What a consecutive reminder from the near-end check needs: the end less than three
      minutes ahead or less than a minute past, a later entry that is not a free period, both
      12-hour times readable, and a full-screen answer from the service. */
  lemma NearEndStep(today: seq<Class>, index: int, now: Moment, notices: NoticeService, end: Option<int>)
    requires 0 <= index < |today|
    requires NearEnd(today, index, now, notices, end).Remind?
    ensures
      var c := today[index];
      var r := NearEnd(today, index, now, notices, end).reminder;
      var next := NextNonFree(today, index);
      end.Some? && -3 * MsPerMinute < now.millis - end.value * MsPerMinute < MsPerMinute &&
      next.Some? && r.classInfo == today[next.value] && r.kind == ConsecutiveReminder &&
      Parse12(r.classInfo.startTime).Some? && Parse12(c.endTime).Some? &&
      notices(Briefing(c, r.classInfo, Parse12(c.endTime).value, Parse12(r.classInfo.startTime).value)) ==
        Notice(FullScreenReminder, r.message)
  {
    ConsecutiveWindow(now.millis, end.value * MsPerMinute);
  }

  /** A consecutive reminder comes only from an enabled class marked consecutive whose end
      reads as a 24-hour time less than three minutes ahead or less than a minute past, when a
      later entry that is not a free period exists; it names the first such entry, and the
      service was asked about the two classes and answered with a full-screen reminder whose
      message it carries. */
  lemma ConsecutiveReminderOnly(today: seq<Class>, index: int, now: Moment, alarms: AlarmService, notices: NoticeService)
    requires 0 <= index < |today| && ValidMoment(now)
    requires Visit(today, index, now, alarms, notices).Remind?
    requires Visit(today, index, now, alarms, notices).reminder.kind == ConsecutiveReminder
    ensures
      var c := today[index];
      var r := Visit(today, index, now, alarms, notices).reminder;
      var end := Parse24(ConvertTo24Hour(c.endTime));
      var next := NextNonFree(today, index);
      !c.isFreePeriod && c.alarmEnabled && c.isConsecutive && Parse24(ConvertTo24Hour(c.startTime)).Some? &&
      end.Some? &&
      -3 * MsPerMinute < now.millis - end.value * MsPerMinute < MsPerMinute &&
      next.Some? && r.classInfo == today[next.value] &&
      Parse12(r.classInfo.startTime).Some? && Parse12(c.endTime).Some? &&
      notices(Briefing(c, r.classInfo, Parse12(c.endTime).value, Parse12(r.classInfo.startTime).value)) ==
        Notice(FullScreenReminder, r.message)
  {
    var c := today[index];
    var start24 := ConvertTo24Hour(c.startTime);
    PreClassStep(today, index, now, alarms, notices, start24, Parse24(start24));
    assert Visit(today, index, now, alarms, notices) == ConsecutiveCheck(today, index, now, notices);
    var end24 := ConvertTo24Hour(c.endTime);
    assert ConsecutiveCheck(today, index, now, notices) == NearEnd(today, index, now, notices, Parse24(end24));
    NearEndStep(today, index, now, notices, Parse24(end24));
  }

  /** A full-screen answer about the ending class and the next one sets the consecutive
      reminder for the next class, with the service's message. */
  lemma FullScreenReminds(c: Class, next: Class, notices: NoticeService, nextStart: int, currentEnd: int, message: string)
    requires 0 <= nextStart < MinutesPerDay && 0 <= currentEnd < MinutesPerDay
    requires notices(Briefing(c, next, currentEnd, nextStart)) == Notice(FullScreenReminder, message)
    ensures NoticeFor(c, next, notices, Some(nextStart), Some(currentEnd)) ==
      Remind(ActiveReminder(ConsecutiveReminder, next, message))
  {
  }

  /** Inside the end window, with a later entry that is not a free period and both 12-hour
      times readable, a full-screen answer makes the near-end check set the reminder. */
  lemma NearEndReminds(today: seq<Class>, index: int, now: Moment, notices: NoticeService, end: int, j: int, message: string)
    requires 0 <= index < |today|
    requires -3 * MsPerMinute < now.millis - end * MsPerMinute < MsPerMinute
    requires NextNonFree(today, index) == Some(j)
    requires Parse12(today[j].startTime).Some? && Parse12(today[index].endTime).Some?
    requires notices(Briefing(today[index], today[j], Parse12(today[index].endTime).value,
                              Parse12(today[j].startTime).value)) == Notice(FullScreenReminder, message)
    ensures NearEnd(today, index, now, notices, Some(end)) == Remind(ActiveReminder(ConsecutiveReminder, today[j], message))
  {
    ConsecutiveWindow(now.millis, end * MsPerMinute);
    FullScreenReminds(today[index], today[j], notices, Parse12(today[j].startTime).value,
                      Parse12(today[index].endTime).value, message);
  }

  /** The same for the whole consecutive check of a class marked consecutive whose end reads
      as a 24-hour time. */
  lemma ConsecutiveCheckReminds(today: seq<Class>, index: int, now: Moment, notices: NoticeService, j: int, message: string)
    requires 0 <= index < |today| && today[index].isConsecutive
    requires var end := Parse24(ConvertTo24Hour(today[index].endTime));
      end.Some? && -3 * MsPerMinute < now.millis - end.value * MsPerMinute < MsPerMinute
    requires NextNonFree(today, index) == Some(j)
    requires Parse12(today[j].startTime).Some? && Parse12(today[index].endTime).Some?
    requires notices(Briefing(today[index], today[j], Parse12(today[index].endTime).value,
                              Parse12(today[j].startTime).value)) == Notice(FullScreenReminder, message)
    ensures ConsecutiveCheck(today, index, now, notices) == Remind(ActiveReminder(ConsecutiveReminder, today[j], message))
  {
    var end24 := ConvertTo24Hour(today[index].endTime);
    assert Parse24("") == None;
    NearEndReminds(today, index, now, notices, Parse24(end24).value, j, message);
  }

  /** When the start is outside the pre-class window, or the alarm service answers without
      asking for an alarm, the pre-class check falls through to the consecutive check. */
  lemma PreClassFallsThrough(today: seq<Class>, index: int, now: Moment, alarms: AlarmService, notices: NoticeService,
                             start24: string, start: int)
    requires 0 <= index < |today| && ValidMoment(now)
    requires var c := today[index];
      var reply := alarms(AlarmRequest(c.subject, c.roomNumber, start24, Format24(now.millis / MsPerMinute)));
      !(10 * MsPerMinute <= start * MsPerMinute - now.millis < 11 * MsPerMinute) ||
      (reply.AlarmAdvice? && !(reply.shouldSetAlarm && reply.alarmTime != ""))
    ensures PreClass(today, index, now, alarms, notices, start24, Some(start)) == ConsecutiveCheck(today, index, now, notices)
  {
    PreClassWindow(start * MsPerMinute, now.millis);
  }

  /** The converse of `ConsecutiveReminderOnly`: an enabled class marked consecutive whose
      start reads as a 24-hour time and whose pre-class step does not fire, inside its end
      window, with a later entry that is not a free period, sets the consecutive reminder for
      that entry when the service gives a full-screen answer. */
  lemma ConsecutiveReminderSet(today: seq<Class>, index: int, now: Moment, alarms: AlarmService,
                               notices: NoticeService, j: int, message: string)
    requires 0 <= index < |today| && ValidMoment(now)
    requires !today[index].isFreePeriod && today[index].alarmEnabled && today[index].isConsecutive
    requires var c := today[index];
      var start24 := ConvertTo24Hour(c.startTime);
      var reply := alarms(AlarmRequest(c.subject, c.roomNumber, start24, Format24(now.millis / MsPerMinute)));
      Parse24(start24).Some? &&
      (!(10 * MsPerMinute <= Parse24(start24).value * MsPerMinute - now.millis < 11 * MsPerMinute) ||
       (reply.AlarmAdvice? && !(reply.shouldSetAlarm && reply.alarmTime != "")))
    requires var end := Parse24(ConvertTo24Hour(today[index].endTime));
      end.Some? && -3 * MsPerMinute < now.millis - end.value * MsPerMinute < MsPerMinute
    requires NextNonFree(today, index) == Some(j)
    requires Parse12(today[j].startTime).Some? && Parse12(today[index].endTime).Some?
    requires notices(Briefing(today[index], today[j], Parse12(today[index].endTime).value,
                              Parse12(today[j].startTime).value)) == Notice(FullScreenReminder, message)
    ensures Visit(today, index, now, alarms, notices) == Remind(ActiveReminder(ConsecutiveReminder, today[j], message))
  {
    var start24 := ConvertTo24Hour(today[index].startTime);
    assert Parse24("") == None;
    PreClassFallsThrough(today, index, now, alarms, notices, start24, Parse24(start24).value);
    ConsecutiveCheckReminds(today, index, now, notices, j, message);
  }

  /** When the consecutive-class service answers with a soft notification, it is shown as a
      toast and the scan goes on to the next class. */
  lemma SoftNotificationContinues(c: Class, next: Class, notices: NoticeService, nextStart: int, currentEnd: int, message: string)
    requires 0 <= nextStart < MinutesPerDay && 0 <= currentEnd < MinutesPerDay
    requires notices(Briefing(c, next, currentEnd, nextStart)) == Notice(SoftNotification, message)
    ensures NoticeFor(c, next, notices, Some(nextStart), Some(currentEnd)) == Continue(Some(NextClassToast(message)))
  {
  }

  /** A failing service call is reported with a toast, and the scan goes on. */
  lemma FailureContinues(c: Class, next: Class, notices: NoticeService, nextStart: int, currentEnd: int)
    requires 0 <= nextStart < MinutesPerDay && 0 <= currentEnd < MinutesPerDay
    requires notices(Briefing(c, next, currentEnd, nextStart)) == NoticeFailed
    ensures NoticeFor(c, next, notices, Some(nextStart), Some(currentEnd)) == Continue(Some(AiErrorToast))
  {
  }

  /** A scan sets no reminder exactly when every class lets it go on; when it sets one, that is
      the reminder of the first class that stops it. */
  lemma {:induction false} FirstReminderWins(outcomes: seq<Outcome>, index: nat)
    ensures Scan(outcomes, index).reminder.None? <==>
      forall k :: index <= k < |outcomes| ==> outcomes[k].Continue?
    ensures Scan(outcomes, index).reminder.Some? ==>
      exists j :: index <= j < |outcomes| && outcomes[j] == Remind(Scan(outcomes, index).reminder.value) &&
        forall k :: index <= k < j ==> outcomes[k].Continue?
    decreases |outcomes| - index
  {
    if index < |outcomes| {
      FirstReminderWins(outcomes, index + 1);
      var found := Scan(outcomes, index).reminder;
      if outcomes[index].Remind? {
        assert outcomes[index] == Remind(found.value);
      } else {
        assert found == Scan(outcomes, index + 1).reminder;
        if found.Some? {
          var j :| index + 1 <= j < |outcomes| && outcomes[j] == Remind(found.value) &&
            forall k :: index + 1 <= k < j ==> outcomes[k].Continue?;
          assert forall k :: index <= k < j ==> outcomes[k].Continue?;
        }
      }
    }
  }

  /** A toast raised before the scan stops is among the toasts the scan shows. */
  lemma {:induction false} ToastShown(outcomes: seq<Outcome>, index: nat, k: int)
    requires index <= k < |outcomes|
    requires forall m :: index <= m < k ==> outcomes[m].Continue?
    requires outcomes[k].Continue? && outcomes[k].toast.Some?
    ensures outcomes[k].toast.value in Scan(outcomes, index).toasts
    decreases k - index
  {
    if index < k {
      ToastShown(outcomes, index + 1, k);
    }
  }

  /** The reminder a scan sets is for an entry of today's list that is not a free period; a
      pre-class reminder is for a class with its alarm on. */
  lemma ReminderFromToday(today: seq<Class>, now: Moment, alarms: AlarmService, notices: NoticeService)
    requires ValidMoment(now)
    ensures var r := Scan(Outcomes(today, now, alarms, notices), 0).reminder;
      r.Some? ==>
        r.value.classInfo in today && !r.value.classInfo.isFreePeriod &&
        (r.value.kind == AlarmReminder ==> r.value.classInfo.alarmEnabled)
  {
    var outcomes := Outcomes(today, now, alarms, notices);
    FirstReminderWins(outcomes, 0);
    if Scan(outcomes, 0).reminder.Some? {
      var j :| 0 <= j < |outcomes| && outcomes[j] == Remind(Scan(outcomes, 0).reminder.value);
      PreClassReminder(today, j, now, alarms, notices);
      if outcomes[j].reminder.kind == ConsecutiveReminder {
        ConsecutiveReminderOnly(today, j, now, alarms, notices);
      }
    }
  }

  /** Today's list is the schedule's list under the name `['Sunday', ..., 'Saturday'][getDay()]`. */
  lemma TodayByName(s: Schedule, now: Moment)
    requires ValidMoment(now)
    ensures DayName(DayOfJsIndex(now.weekday)) ==
      ["Sunday", "Monday", "Tuesday", "Wednesday", "Thursday", "Friday", "Saturday"][now.weekday]
    ensures TodayClasses(s, now) == DayList(s, DayOfJsIndex(now.weekday))
  {
  }
}
