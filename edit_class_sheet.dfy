/** The edit sheet of one class: the form's validation rules and what a valid form sends on to
    `updateClass`. */
module EditSheet {
  import opened Js
  import opened Types
  import opened Utils
  import opened Process
  import opened Store

  /** The hour of the 24-hour pattern, `[01]?[0-9]|2[0-3]`. */
  predicate HourPart(h: string)
  {
    (|h| == 1 && IsDigit(h[0])) ||
    (|h| == 2 && (h[0] == '0' || h[0] == '1') && IsDigit(h[1])) ||
    (|h| == 2 && h[0] == '2' && '0' <= h[1] <= '3')
  }

  /** The minutes of the 24-hour pattern, `[0-5][0-9]`. */
  predicate MinutePart(m: string)
  {
    |m| == 2 && '0' <= m[0] <= '5' && IsDigit(m[1])
  }

  /** `/^([01]?[0-9]|2[0-3]):[0-5][0-9]$/.test(s)`: the hour takes one or two characters, so
      the ':' is the second or the third. */
  predicate ValidTime24(s: string)
  {
    (|s| == 4 && HourPart(s[..1]) && s[1] == ':' && MinutePart(s[2..])) ||
    (|s| == 5 && HourPart(s[..2]) && s[2] == ':' && MinutePart(s[3..]))
  }

  /** The form's fields as the user typed them. */
  datatype FormValues = FormValues(subject: string, roomNumber: string, startTime: string, duration: string, dayOfWeek: string)

  /** The form's fields once the schema accepts them; the day is one of the seven. */
  datatype ClassForm = ClassForm(subject: string, roomNumber: string, startTime: string, duration: string, dayOfWeek: Day)

  datatype FormField = SubjectField | RoomNumberField | StartTimeField | DurationField | DayOfWeekField

  /** The message the schema shows under a field; the day's is zod's own enum message, which
      is not part of this model. */
  function Message(f: FormField): string
  {
    match f
    case SubjectField => "Subject is required."
    case RoomNumberField => "Room number is required."
    case StartTimeField => "Invalid time format (HH:MM 24-hour)."
    case DurationField => "Duration is required."
    case DayOfWeekField => ""
  }

  /** Whether one field passes its rule. */
  predicate FieldValid(v: FormValues, f: FormField)
  {
    match f
    case SubjectField => |v.subject| >= 1
    case RoomNumberField => |v.roomNumber| >= 1
    case StartTimeField => ValidTime24(v.startTime)
    case DurationField => |v.duration| >= 1
    case DayOfWeekField => DayFromName(v.dayOfWeek).Some?
  }

  const FormFields: seq<FormField> := [SubjectField, RoomNumberField, StartTimeField, DurationField, DayOfWeekField]

  datatype Checked = Accepted(values: ClassForm) | Rejected(issues: seq<FormField>)

  /** `classSchema.safeParse(values)`: the values with the day read, or every failing field in
      the schema's order. */
  function Validate(v: FormValues): Checked
  {
    var issues := Filter((f: FormField) => !FieldValid(v, f), FormFields);
    if issues == [] && DayFromName(v.dayOfWeek).Some? then
      Accepted(ClassForm(v.subject, v.roomNumber, v.startTime, v.duration, DayFromName(v.dayOfWeek).value))
    else Rejected(issues)
  }

  /** `{ ...classInfo, ...values }`: the form's five fields over the class being edited. */
  function Merge(classInfo: Class, values: ClassForm): (r: Class)
    ensures r.id == classInfo.id && r.endTime == classInfo.endTime
    ensures r.alarmEnabled == classInfo.alarmEnabled && r.isConsecutive == classInfo.isConsecutive
    ensures r.isFreePeriod == classInfo.isFreePeriod
    ensures r.subject == values.subject && r.roomNumber == values.roomNumber
    ensures r.startTime == values.startTime && r.duration == values.duration
    ensures r.dayOfWeek == values.dayOfWeek
  {
    classInfo.(subject := values.subject, roomNumber := values.roomNumber, startTime := values.startTime,
               duration := values.duration, dayOfWeek := values.dayOfWeek)
  }

  /** `onSubmit`: the merged class handed to `updateClass`. */
  function Submitted(prev: Schedule, classInfo: Class, values: ClassForm): Schedule
    requires HasAllDays(prev)
  {
    UpdatedSchedule(prev, Merge(classInfo, values))
  }

  // ----- Properties -----

  /** The form is accepted exactly when every field passes its rule, and then the values are
      the ones typed with the day read from its name. */
  lemma ValidateAccepts(v: FormValues)
    ensures Validate(v).Accepted? <==>
      |v.subject| >= 1 && |v.roomNumber| >= 1 && ValidTime24(v.startTime) && |v.duration| >= 1 &&
      DayFromName(v.dayOfWeek).Some?
    ensures Validate(v).Accepted? ==>
      Validate(v).values == ClassForm(v.subject, v.roomNumber, v.startTime, v.duration, DayFromName(v.dayOfWeek).value)
  {
    var p := (f: FormField) => !FieldValid(v, f);
    forall f: FormField
      ensures f in Filter(p, FormFields) <==> !FieldValid(v, f)
    {
      FilterMember(p, FormFields, f);
      assert f in FormFields by { match f case SubjectField => case RoomNumberField => case StartTimeField =>
        case DurationField => case DayOfWeekField => }
    }
    assert (FieldValid(v, SubjectField) && FieldValid(v, RoomNumberField) && FieldValid(v, StartTimeField) &&
            FieldValid(v, DurationField) && FieldValid(v, DayOfWeekField)) ==> Filter(p, FormFields) == [];
  }

  /** A rejected form names exactly the fields that fail their rules. */
  lemma ValidateIssues(v: FormValues, f: FormField)
    requires Validate(v).Rejected?
    ensures f in Validate(v).issues <==> !FieldValid(v, f)
  {
    var p := (g: FormField) => !FieldValid(v, g);
    FilterMember(p, FormFields, f);
    assert f in FormFields by { match f case SubjectField => case RoomNumberField => case StartTimeField =>
      case DurationField => case DayOfWeekField => }
  }

  /** The hour of the pattern is at most 23. */
  lemma HourValue(h: string)
    requires HourPart(h)
    ensures AllDigits(h) && DigitsValue(h) <= 23
  {
    if |h| == 2 {
      assert h[..1][..0] == [] && h[..1][0] == h[0] && h[..|h| - 1] == h[..1];
      assert DigitsValue(h[..1]) == DigitValue(h[0]);
      assert DigitsValue(h) == DigitValue(h[0]) * 10 + DigitValue(h[1]);
    } else {
      assert h[..0] == [];
    }
  }

  /** The minutes of the pattern are at most 59. */
  lemma MinuteValue(m: string)
    requires MinutePart(m)
    ensures AllDigits(m) && DigitsValue(m) <= 59
  {
    assert m[..1][..0] == [] && m[..1][0] == m[0] && m[..|m| - 1] == m[..1];
    assert DigitsValue(m[..1]) == DigitValue(m[0]);
    assert DigitsValue(m) == DigitValue(m[0]) * 10 + DigitValue(m[1]);
  }

  /** A start time the form accepts is a time `HH:mm` parsing reads: the hour before ':' and
      the minutes after it. */
  lemma ValidTimeParses(s: string) returns (h: string, m: string)
    requires ValidTime24(s)
    ensures s == h + ":" + m && HourPart(h) && MinutePart(m)
    ensures Parse24(s) == Some(DigitsValue(h) * 60 + DigitsValue(m))
  {
    if |s| == 4 {
      h, m := s[..1], s[2..];
    } else {
      h, m := s[..2], s[3..];
    }
    assert s == h + ":" + m;
    HourValue(h);
    MinuteValue(m);
    ReadClockOfParts(h, m, []);
    assert h + ":" + m + [] == s;
  }

  /** `convertTo24Hour` keeps a start time the form accepts as it is, so `updateClass` does not
      reject an edited class for its start time. */
  lemma ValidTimeKept(s: string)
    requires ValidTime24(s)
    ensures ConvertTo24Hour(s) == s && s != ""
  {
    var h, m := ValidTimeParses(s);
    HourValue(h);
    MinuteValue(m);
    ConvertTo24HourKeepsClock(h, m);
  }

  /** Every time date-fns writes as `HH:mm` passes the pattern. */
  lemma Format24IsValid(t: int)
    requires 0 <= t < MinutesPerDay
    ensures ValidTime24(Format24(t))
  {
    var s := Format24(t);
    var h, m := t / 60, t % 60;
    assert s[..2] == Pad2(h) && s[2] == ':' && s[3..] == Pad2(m);
    assert Pad2(h)[0] == DigitChar(h / 10) && Pad2(h)[1] == DigitChar(h % 10);
    assert Pad2(m)[0] == DigitChar(m / 10) && Pad2(m)[1] == DigitChar(m % 10);
  }

  /** The pattern's examples: one- and two-digit hours pass; hour 24, a one-digit minute and
      minute 60 do not. */
  lemma PatternExamples()
    ensures ValidTime24("9:05") && ValidTime24("09:05") && ValidTime24("23:59")
    ensures !ValidTime24("24:00") && !ValidTime24("9:5") && !ValidTime24("9:60")
  {
    assert "9:05"[..1] == "9" && "9:05"[2..] == "05";
    assert "09:05"[..2] == "09" && "09:05"[3..] == "05";
    assert "23:59"[..2] == "23" && "23:59"[3..] == "59";
    assert "24:00"[..2] == "24";
    assert "9:60"[2..] == "60";
  }

  /** The merged class keeps everything the form does not show, so `updateClass` finds the
      class by its id, and takes what the form shows. */
  lemma MergeKeepsHidden(classInfo: Class, values: ClassForm)
    ensures Merge(classInfo, values) ==
      Class(classInfo.id, values.subject, values.roomNumber, values.duration, values.startTime,
            classInfo.endTime, values.dayOfWeek, classInfo.alarmEnabled, classInfo.isConsecutive,
            classInfo.isFreePeriod)
  {
  }

  /** A submitted form is turned away by `updateClass` only for the class's old end time: the
      start time it accepted always converts. */
  lemma SubmitRejectedOnlyForEnd(prev: Schedule, classInfo: Class, values: ClassForm)
    requires HasAllDays(prev) && ValidTime24(values.startTime)
    requires ConvertTo24Hour(classInfo.endTime) != ""
    ensures Submitted(prev, classInfo, values) == NormalizeSchedule(Staged(prev, Merge(classInfo, values)))
  {
    ValidTimeKept(values.startTime);
  }

  /** The duration typed in the form is not what is stored: `updateClass` writes the duration
      from the start and end times over it. */
  lemma DurationFieldOverwritten(classInfo: Class, values: ClassForm, typed: string)
    ensures WithDuration(Merge(classInfo, values)) == WithDuration(Merge(classInfo, values.(duration := typed)))
  {
  }
}
