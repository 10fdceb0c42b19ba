/** `processSchedule`: each day's entries are given a 24-hour start key and sorted by it, the
    entries without a usable start are dropped, a free period is put into every gap of more
    than 15 minutes, times are rewritten as 12-hour text, and each class is marked as
    consecutive when the next one starts at most 10 minutes after it ends. */
module Process {
  import opened Js
  import opened Types
  import opened Utils
  import opened KeyOrder

  // ----- Keys and minutes -----

  /** The entries with their start keys, `.map(...)` then `.filter(c => c.startTime24)`. */
  function WithKeys(raw: seq<Class>): (r: seq<Keyed>)
    ensures forall k :: k in r <==>
      k.cls in raw && k.key == ConvertTo24Hour(k.cls.startTime) && k.key != ""
  {
    if raw == [] then []
    else
      var key := ConvertTo24Hour(raw[0].startTime);
      assert raw == [raw[0]] + raw[1..];
      (if key != "" then [Keyed(raw[0], key)] else []) + WithKeys(raw[1..])
  }

  /** `key.split(':').map(Number)` made into minutes past midnight, as `setHours` and
      `setMinutes` do; NaN when either part is missing or not a number. */
  function KeyMinutes(key: string): Num
  {
    match SecondPiece(key, ':')
    case None => NaN
    case Some(minutes) => AtTime(ToNumber(Before(key, ':')), ToNumber(minutes))
  }

  /** `setMinutes(setHours(today, h), m)` as minutes past midnight; NaN stays NaN. */
  function AtTime(h: Num, m: Num): Num
  {
    if h.Int? && m.Int? then Int(h.value * 60 + m.value) else NaN
  }

  /** `Number` of two digits is their value. */
  lemma ToNumberOfDigits(d: string)
    requires |d| == 2 && AllDigits(d)
    ensures ToNumber(d) == Int(DigitsValue(d))
  {
    TrimStartAtDigit(d);
    assert TrimEnd(d) == d;
  }

  /** The minutes of a key `convertTo24Hour` wrote are the time it stands for. */
  lemma KeyMinutesOfFormat24(t: int)
    requires 0 <= t < MinutesPerDay
    ensures KeyMinutes(Format24(t)) == Int(t)
  {
    var h, m := Pad2(t / 60), Pad2(t % 60);
    assert Format24(t) == h + [':'] + m;
    KeyMinutesOfParts(h, m);
    ToNumberOfDigits(h);
    ToNumberOfDigits(m);
    HoursAndMinutes(t);
  }

  lemma HoursAndMinutes(t: int)
    requires 0 <= t
    ensures AtTime(Int(t / 60), Int(t % 60)) == Int(t)
  {
    var hours, minutes := t / 60, t % 60;
    assert hours * 60 + minutes == t;
  }

  /** A key of two digit runs around one ':' is read as hours and minutes. */
  lemma KeyMinutesOfParts(h: string, m: string)
    requires AllDigits(h) && AllDigits(m)
    ensures KeyMinutes(h + [':'] + m) == AtTime(ToNumber(h), ToNumber(m))
  {
    DigitsWithout(h, ':');
    DigitsWithout(m, ':');
    SplitAtFirst(h, ':', m);
    BeforeWithoutSep(m, ':');
    assert SecondPiece(h + [':'] + m, ':') == Some(m);
  }

  /** An entry the day loop keeps: not a free period, and a start that is a valid time. */
  predicate Keeps(k: Keyed)
  {
    !k.cls.isFreePeriod && KeyMinutes(k.key).Int?
  }

  /** The entries the day loop does not skip. */
  function Kept(ks: seq<Keyed>): seq<Keyed>
  {
    Filter(Keeps, ks)
  }

  /** `parseInt(duration.split(' ')[0]) || 50`: the class length the end time falls back on. */
  function FallbackLength(duration: string): (n: int)
    ensures n != 0
    ensures ParseInt(FirstWord(duration)).Int? && ParseInt(FirstWord(duration)).value != 0 ==>
      n == ParseInt(FirstWord(duration)).value
  {
    match ParseInt(FirstWord(duration))
    case NaN => 50
    case Int(v) => if v == 0 then 50 else v
  }

  /** Where a class ends: its end time as a key, else its start plus the fallback length. */
  function EndMinutes(c: Class, start: int): int
  {
    match KeyMinutes(ConvertTo24Hour(c.endTime))
    case Int(e) => e
    case NaN => start + FallbackLength(c.duration)
  }

  // ----- The day loop -----

  /** A class as the day keeps it: start and end written as 12-hour text. */
  function Reformat(c: Class): (r: Class)
    ensures r.isFreePeriod == c.isFreePeriod
  {
    c.(startTime := FormatTo12Hour(c.startTime), endTime := FormatTo12Hour(c.endTime))
  }

  /** The free period from minute `from` to minute `to` of `day`. */
  function FreePeriod(day: Day, from: int, to: int): (r: Class)
    ensures r.isFreePeriod && !r.alarmEnabled && !r.isConsecutive && r.dayOfWeek == day
    ensures r.id == "free-" + DayName(day) + "-" + Format24(from % MinutesPerDay)
    ensures r.subject == "Free Period" && r.roomNumber == ""
  {
    var at := Format24(from % MinutesPerDay);
    Class(
      id := "free-" + DayName(day) + "-" + at,
      subject := "Free Period",
      roomNumber := "",
      duration := FormatDuration(Int(to - from)),
      startTime := FormatTo12Hour(at),
      endTime := FormatTo12Hour(Format24(to % MinutesPerDay)),
      dayOfWeek := day,
      alarmEnabled := false,
      isConsecutive := false,
      isFreePeriod := true)
  }

  /** Two free periods of one day that start at different times of day have different ids. */
  lemma FreePeriodIdsDiffer(day: Day, from: int, to: int, from': int, to': int)
    requires from % MinutesPerDay != from' % MinutesPerDay
    ensures FreePeriod(day, from, to).id != FreePeriod(day, from', to').id
  {
    var prefix := "free-" + DayName(day) + "-";
    var at, at' := Format24(from % MinutesPerDay), Format24(from' % MinutesPerDay);
    if prefix + at == prefix + at' {
      assert at == (prefix + at)[|prefix|..] && at' == (prefix + at')[|prefix|..];
      Parse24OfFormat24(from % MinutesPerDay);
      Parse24OfFormat24(from' % MinutesPerDay);
    }
  }

  /** The free period before a class that starts at `start`, if the gap since the last end
      is more than 15 minutes. */
  function Gap(day: Day, lastEnd: Option<int>, start: int): seq<Class>
  {
    if lastEnd.Some? && start - lastEnd.value > 15 then [FreePeriod(day, lastEnd.value, start)]
    else []
  }

  /** What the day loop pushes for the sorted entries `ks`, given the end of the last class
      it kept. */
  function Lay(day: Day, ks: seq<Keyed>, lastEnd: Option<int>): seq<Class>
    decreases |ks|
  {
    if ks == [] then []
    else if !Keeps(ks[0]) then Lay(day, ks[1..], lastEnd)
    else
      var start := KeyMinutes(ks[0].key).value;
      Gap(day, lastEnd, start) + [Reformat(ks[0].cls)] +
        Lay(day, ks[1..], Some(EndMinutes(ks[0].cls, start)))
  }

  // ----- The consecutive marks -----

  /** Entry `i` is followed by a class that starts 0 to 10 minutes after it ends, both
      times read back from their 12-hour text. */
  predicate Adjacent(xs: seq<Class>, i: int)
  {
    0 <= i && i + 1 < |xs| && !xs[i].isFreePeriod && !xs[i + 1].isFreePeriod &&
    var end := Parse24(ConvertTo24Hour(xs[i].endTime));
    var next := Parse24(ConvertTo24Hour(xs[i + 1].startTime));
    end.Some? && next.Some? && 0 <= next.value - end.value <= 10
  }

  /** The consecutive loop and the fix-up after it: every entry but the last is marked by
      `Adjacent`, and the last is unmarked unless it is a free period, which is left as it is. */
  function MarkConsecutive(xs: seq<Class>): (r: seq<Class>)
    ensures |r| == |xs|
  {
    seq(|xs|, i requires 0 <= i < |xs| => Marked(xs, i))
  }

  function Marked(xs: seq<Class>, i: int): Class
    requires 0 <= i < |xs|
  {
    if i == |xs| - 1 && xs[i].isFreePeriod then xs[i] else xs[i].(isConsecutive := Adjacent(xs, i))
  }

  /** The day `processSchedule` makes of the entries `raw`. */
  function Normalize(day: Day, raw: seq<Class>): seq<Class>
  {
    MarkConsecutive(Lay(day, SortByKey(WithKeys(raw)), None))
  }

  /** `processSchedule` over the seven days; `schedule[day] || []` for a missing day. */
  function NormalizeSchedule(s: Schedule): (r: Schedule)
    ensures HasAllDays(r)
  {
    var r := map d: Day | d in AllDays :: Normalize(d, DayList(s, d));
    forall d: Day ensures d in r { EveryDayListed(d); }
    r
  }

  // ----- The imperative day loop -----

  /** One pass of the day loop of `processSchedule`. */
  method ProcessDay(day: Day, raw: seq<Class>) returns (processed: seq<Class>)
    ensures processed == Normalize(day, raw)
  {
    var daySchedule := SortByKey(WithKeys(raw));
    var laid := LayOut(day, daySchedule);
    processed := MarkRuns(laid);
  }

  /** The first loop of the day: skip, add free periods, push classes, track the last end. */
  method LayOut(day: Day, daySchedule: seq<Keyed>) returns (laid: seq<Class>)
    ensures laid == Lay(day, daySchedule, None)
  {
    laid := [];
    var lastEnd: Option<int> := None;
    for i := 0 to |daySchedule|
      invariant laid + Lay(day, daySchedule[i..], lastEnd) == Lay(day, daySchedule, None)
    {
      LayStep(day, daySchedule[i..], lastEnd);
      assert daySchedule[i..][1..] == daySchedule[i + 1..];
      var current := daySchedule[i];
      if current.cls.isFreePeriod {
        continue;
      }
      var start := KeyMinutes(current.key);
      if start.NaN? {
        continue;
      }
      var gap: seq<Class> := [];
      if lastEnd.Some? && start.value - lastEnd.value > 15 {
        gap := [FreePeriod(day, lastEnd.value, start.value)];
      }
      assert gap == Gap(day, lastEnd, start.value);
      ghost var rest := Lay(day, daySchedule[i + 1..], Some(EndMinutes(current.cls, start.value)));
      assert Lay(day, daySchedule[i..], lastEnd) == gap + [Reformat(current.cls)] + rest;
      AppendAssoc(laid, gap + [Reformat(current.cls)], rest);
      laid := laid + (gap + [Reformat(current.cls)]);
      var end := ClassEnd(current.cls, start.value);
      lastEnd := Some(end);
    }
    assert daySchedule[|daySchedule|..] == [];
  }

  /** Where the class that starts at `start` ends: its end time, or the fallback length. */
  method ClassEnd(c: Class, start: int) returns (end: int)
    ensures end == EndMinutes(c, start)
  {
    var endTime := KeyMinutes(ConvertTo24Hour(c.endTime));
    if endTime.Int? {
      end := endTime.value;
    } else {
      end := start + FallbackLength(c.duration);
    }
  }

  /** One step of the day loop. */
  lemma LayStep(day: Day, ks: seq<Keyed>, lastEnd: Option<int>)
    requires ks != []
    ensures !Keeps(ks[0]) ==> Lay(day, ks, lastEnd) == Lay(day, ks[1..], lastEnd)
    ensures Keeps(ks[0]) ==>
      var start := KeyMinutes(ks[0].key).value;
      Lay(day, ks, lastEnd) == Gap(day, lastEnd, start) + [Reformat(ks[0].cls)] +
        Lay(day, ks[1..], Some(EndMinutes(ks[0].cls, start)))
  {
  }

  /** The consecutive loop and the fix-up of the last entry, updating the day in place. */
  method MarkRuns(laid: seq<Class>) returns (processed: seq<Class>)
    ensures processed == MarkConsecutive(laid)
  {
    processed := laid;
    var i := 0;
    while i < |processed| - 1
      invariant 0 <= i <= |laid| && |processed| == |laid|
      invariant forall j :: 0 <= j < i ==> processed[j] == Marked(laid, j)
      invariant forall j :: i <= j < |laid| ==> processed[j] == laid[j]
    {
      var currentClass := processed[i];
      var nextClass := processed[i + 1];
      var mark: bool;
      if currentClass.isFreePeriod || nextClass.isFreePeriod {
        mark := false;
      } else {
        var currentEnd := Parse24(ConvertTo24Hour(currentClass.endTime));
        var nextStart := Parse24(ConvertTo24Hour(nextClass.startTime));
        if currentEnd.Some? && nextStart.Some? {
          var diff := nextStart.value - currentEnd.value;
          mark := diff >= 0 && diff <= 10;
        } else {
          mark := false;
        }
      }
      assert mark == Adjacent(laid, i);
      processed := processed[i := currentClass.(isConsecutive := mark)];
      i := i + 1;
    }
    if |processed| > 0 && !processed[|processed| - 1].isFreePeriod {
      processed := processed[|processed| - 1 := processed[|processed| - 1].(isConsecutive := false)];
    }
  }

  /** `processSchedule(newSchedule)`, day after day in `ALL_DAYS` order. */
  method ProcessSchedule(s: Schedule) returns (r: Schedule)
    ensures r == NormalizeSchedule(s)
  {
    ghost var normalize := Normalize;
    r := s;
    for n := 0 to |AllDays|
      invariant DaysDone(r, s, n, normalize)
    {
      var day := AllDays[n];
      var processedDay := ProcessDay(day, DayList(r, day));
      DoneStep(r, s, n, normalize, processedDay);
      r := r[day := processedDay];
    }
    SameSchedule(r, s);
  }

  /** The first `n` days of `ALL_DAYS` hold `f` of their input list, and the others are as
      they were in `s`. */
  ghost predicate DaysDone(r: Schedule, s: Schedule, n: int, f: (Day, seq<Class>) -> seq<Class>)
  {
    (forall d: Day :: DayIndex(d) < n ==> d in r && r[d] == f(d, DayList(s, d))) &&
    (forall d: Day :: DayIndex(d) >= n ==> DayList(r, d) == DayList(s, d))
  }

  /** Processing day `n` of `ALL_DAYS` extends the processed days by one. */
  lemma DoneStep(r: Schedule, s: Schedule, n: int, f: (Day, seq<Class>) -> seq<Class>, processed: seq<Class>)
    requires 0 <= n < |AllDays| && DaysDone(r, s, n, f)
    requires processed == f(AllDays[n], DayList(r, AllDays[n]))
    ensures DaysDone(r[AllDays[n] := processed], s, n + 1, f)
  {
    var day := AllDays[n];
    var r' := r[day := processed];
    IndexOfDay(n);
    assert DayList(r, day) == DayList(s, day);
    forall d: Day | DayIndex(d) < n + 1
      ensures d in r' && r'[d] == f(d, DayList(s, d))
    {
      if d != day {
        assert DayIndex(d) < n;
      }
    }
    forall d: Day | DayIndex(d) >= n + 1
      ensures DayList(r', d) == DayList(s, d)
    {
      assert d != day && DayList(r', d) == DayList(r, d);
    }
  }

  /** A schedule that has every day normalised is the normalised schedule. */
  lemma SameSchedule(r: Schedule, s: Schedule)
    requires DaysDone(r, s, |AllDays|, Normalize)
    ensures r == NormalizeSchedule(s)
  {
    forall d: Day
      ensures d in r && r[d] == Normalize(d, DayList(s, d))
    {
      assert DayIndex(d) < |AllDays|;
    }
    forall d: Day
      ensures d in NormalizeSchedule(s) && NormalizeSchedule(s)[d] == r[d]
    {
      NormalizedDay(s, d);
    }
    SameDays(r, NormalizeSchedule(s));
  }

  lemma NormalizedDay(s: Schedule, d: Day)
    ensures d in NormalizeSchedule(s) && NormalizeSchedule(s)[d] == Normalize(d, DayList(s, d))
  {
    EveryDayListed(d);
  }

  /** Two schedules with the same list on every day are the same. */
  lemma SameDays(r: Schedule, t: Schedule)
    requires HasAllDays(t)
    requires forall d: Day :: d in r && r[d] == t[d]
    ensures r == t
  {
    assert r.Keys == t.Keys;
  }

  // ----- Properties of the day -----

  /** The list is empty or its last entry is a class. */
  predicate EndsWithClass(xs: seq<Class>)
  {
    xs != [] ==> !xs[|xs| - 1].isFreePeriod
  }

  /** The last entry the day loop pushes is a class, never a free period. */
  lemma {:induction false} LayEndsWithClass(day: Day, ks: seq<Keyed>, lastEnd: Option<int>)
    ensures EndsWithClass(Lay(day, ks, lastEnd))
    decreases |ks|
  {
    if ks != [] {
      LayStep(day, ks, lastEnd);
      if !Keeps(ks[0]) {
        LayEndsWithClass(day, ks[1..], lastEnd);
      } else {
        var start := KeyMinutes(ks[0].key).value;
        var next := Some(EndMinutes(ks[0].cls, start));
        LayEndsWithClass(day, ks[1..], next);
        LastOfPush(Gap(day, lastEnd, start), Reformat(ks[0].cls), Lay(day, ks[1..], next));
      }
    }
  }

  /** A class followed by a list that ends with a class ends with a class. */
  lemma LastOfPush(front: seq<Class>, c: Class, tail: seq<Class>)
    requires !c.isFreePeriod && EndsWithClass(tail)
    ensures EndsWithClass(front + [c] + tail)
  {
    var xs := front + [c] + tail;
    assert xs[|xs| - 1] == if tail == [] then c else tail[|tail| - 1];
  }

  /** The entries of a day that are classes, not free periods. */
  function Classes(xs: seq<Class>): seq<Class>
  {
    if xs == [] then []
    else (if xs[0].isFreePeriod then [] else [xs[0]]) + Classes(xs[1..])
  }

  /** The classes kept from sorted entries, as the day stores them. */
  function Stored(ks: seq<Keyed>): (r: seq<Class>)
    ensures |r| == |ks|
  {
    if ks == [] then [] else [Reformat(ks[0].cls)] + Stored(ks[1..])
  }

  lemma {:induction false} ClassesAppend(a: seq<Class>, b: seq<Class>)
    ensures Classes(a + b) == Classes(a) + Classes(b)
    decreases |a|
  {
    if a != [] {
      assert (a + b)[1..] == a[1..] + b && (a + b)[0] == a[0];
      ClassesAppend(a[1..], b);
    } else {
      assert a + b == b;
    }
  }

  /** The classes the day loop pushes are the kept entries, in their sorted order, with
      12-hour times; free periods are the only other entries. */
  lemma {:induction false} LayClasses(day: Day, ks: seq<Keyed>, lastEnd: Option<int>)
    ensures Classes(Lay(day, ks, lastEnd)) == Stored(Kept(ks))
    decreases |ks|, 1
  {
    if ks != [] && !Keeps(ks[0]) {
      LayStep(day, ks, lastEnd);
      KeptStep(ks);
      LayClasses(day, ks[1..], lastEnd);
    } else if ks != [] {
      LayClassesPush(day, ks, lastEnd);
    }
  }

  /** The step of `LayClasses` for an entry the loop keeps. */
  lemma {:induction false} LayClassesPush(day: Day, ks: seq<Keyed>, lastEnd: Option<int>)
    requires ks != [] && Keeps(ks[0])
    ensures Classes(Lay(day, ks, lastEnd)) == Stored(Kept(ks))
    decreases |ks|, 0
  {
    LayStep(day, ks, lastEnd);
    KeptStep(ks);
    var start := KeyMinutes(ks[0].key).value;
    var next := Some(EndMinutes(ks[0].cls, start));
    LayClasses(day, ks[1..], next);
    PushStored(Gap(day, lastEnd, start), ks[0], Lay(day, ks[1..], next), Kept(ks[1..]));
  }

  /** A pushed class after at most one free period adds that class in front of the stored
      classes. */
  lemma PushStored(gap: seq<Class>, k: Keyed, tail: seq<Class>, rest: seq<Keyed>)
    requires |gap| <= 1 && (gap != [] ==> gap[0].isFreePeriod) && !k.cls.isFreePeriod
    requires Classes(tail) == Stored(rest)
    ensures Classes(gap + [Reformat(k.cls)] + tail) == Stored([k] + rest)
  {
    ClassesOfPush(gap, Reformat(k.cls), tail);
    assert ([k] + rest)[1..] == rest;
  }

  lemma KeptStep(ks: seq<Keyed>)
    requires ks != []
    ensures Keeps(ks[0]) ==> Kept(ks) == [ks[0]] + Kept(ks[1..])
    ensures !Keeps(ks[0]) ==> Kept(ks) == Kept(ks[1..])
  {
    FilterStep(Keeps, ks);
  }

  /** A pushed class is the only class among a free period before it. */
  lemma ClassesOfPush(gap: seq<Class>, c: Class, tail: seq<Class>)
    requires |gap| <= 1 && (gap != [] ==> gap[0].isFreePeriod) && !c.isFreePeriod
    ensures Classes(gap + [c] + tail) == [c] + Classes(tail)
  {
    ClassesAppend(gap + [c], tail);
    ClassesAppend(gap, [c]);
    assert Classes([c]) == [c] + Classes([]);
    if gap != [] {
      assert Classes(gap) == [] + Classes([]);
    }
  }

  /** Free periods lie between classes: each is followed by a class, and the first entry is a
      free period only when a class ended before these entries. Two free periods are thus never
      next to each other. */
  predicate FreeFlanked(xs: seq<Class>, afterClass: bool)
  {
    (xs != [] && xs[0].isFreePeriod ==> afterClass) &&
    forall i :: 0 <= i < |xs| && xs[i].isFreePeriod ==> i + 1 < |xs| && !xs[i + 1].isFreePeriod
  }

  lemma FlankedPush(gap: seq<Class>, c: Class, tail: seq<Class>, afterClass: bool)
    requires |gap| <= 1 && (gap != [] ==> gap[0].isFreePeriod && afterClass)
    requires !c.isFreePeriod && FreeFlanked(tail, true)
    ensures FreeFlanked(gap + [c] + tail, afterClass)
  {
    var xs := gap + [c] + tail;
    forall i | 0 <= i < |xs| && xs[i].isFreePeriod
      ensures i + 1 < |xs| && !xs[i + 1].isFreePeriod
    {
      if i > |gap| {
        assert xs[i] == tail[i - |gap| - 1];
        assert i + 1 < |xs| ==> xs[i + 1] == tail[i - |gap|];
      }
    }
  }

  lemma {:induction false} LayFreeFlanked(day: Day, ks: seq<Keyed>, lastEnd: Option<int>)
    ensures FreeFlanked(Lay(day, ks, lastEnd), lastEnd.Some?)
    decreases |ks|
  {
    if ks != [] {
      LayStep(day, ks, lastEnd);
      if !Keeps(ks[0]) {
        LayFreeFlanked(day, ks[1..], lastEnd);
      } else {
        var start := KeyMinutes(ks[0].key).value;
        var next := Some(EndMinutes(ks[0].cls, start));
        LayFreeFlanked(day, ks[1..], next);
        FlankedPush(Gap(day, lastEnd, start), Reformat(ks[0].cls), Lay(day, ks[1..], next), lastEnd.Some?);
      }
    }
  }

  /** Marking changes the consecutive flags and nothing else. */
  lemma MarkOnlyFlags(xs: seq<Class>, i: int)
    requires 0 <= i < |xs|
    ensures MarkConsecutive(xs)[i] == xs[i].(isConsecutive := MarkConsecutive(xs)[i].isConsecutive)
  {
  }

  /** Adjacency does not read the flags, so marking leaves it as it was. */
  lemma AdjacentAfterMarking(xs: seq<Class>, i: int)
    ensures Adjacent(MarkConsecutive(xs), i) == Adjacent(xs, i)
  {
    var ms := MarkConsecutive(xs);
    if 0 <= i && i + 1 < |xs| {
      MarkOnlyFlags(xs, i);
      MarkOnlyFlags(xs, i + 1);
      assert ms[i].endTime == xs[i].endTime && ms[i + 1].startTime == xs[i + 1].startTime;
      assert ms[i].isFreePeriod == xs[i].isFreePeriod && ms[i + 1].isFreePeriod == xs[i + 1].isFreePeriod;
    }
  }

  // ----- The kept entries -----

  /** The entries kept are exactly those of `ks` that `Keeps` accepts. */
  lemma KeptMember(ks: seq<Keyed>, k: Keyed)
    ensures k in Kept(ks) <==> k in ks && Keeps(k)
  {
    FilterMember(Keeps, ks, k);
  }

  /** Reordering the entries reorders the kept ones the same way. */
  lemma KeptPermutation(a: seq<Keyed>, b: seq<Keyed>)
    requires multiset(a) == multiset(b)
    ensures multiset(Kept(a)) == multiset(Kept(b))
  {
    forall k
      ensures multiset(Kept(a))[k] == multiset(Kept(b))[k]
    {
      FilterCount(Keeps, a, k);
      FilterCount(Keeps, b, k);
    }
  }

  // ----- Properties of the normalised day -----

  /** The entries with every consecutive flag cleared. */
  function Unflagged(xs: seq<Class>): (r: seq<Class>)
    ensures |r| == |xs|
  {
    seq(|xs|, i requires 0 <= i < |xs| => xs[i].(isConsecutive := false))
  }

  lemma MarkedUnflagged(xs: seq<Class>)
    ensures Unflagged(MarkConsecutive(xs)) == Unflagged(xs)
  {
    forall i | 0 <= i < |xs|
      ensures Unflagged(MarkConsecutive(xs))[i] == Unflagged(xs)[i]
    {
      MarkOnlyFlags(xs, i);
    }
  }

  lemma {:induction false} ClassesUnflagged(xs: seq<Class>)
    ensures Classes(Unflagged(xs)) == Unflagged(Classes(xs))
    decreases |xs|
  {
    if xs != [] {
      ClassesUnflagged(xs[1..]);
      assert Unflagged(xs)[1..] == Unflagged(xs[1..]);
      assert Unflagged(xs)[0] == xs[0].(isConsecutive := false);
      var head := if xs[0].isFreePeriod then [] else [xs[0]];
      assert Classes(xs) == head + Classes(xs[1..]);
      assert Unflagged(head + Classes(xs[1..])) == Unflagged(head) + Unflagged(Classes(xs[1..]));
    }
  }

  /** Flags aside, the classes of a processed day are the entries the loop keeps, in the order
      of their keys, each exactly as often as it was given, with 12-hour times. */
  lemma NormalizeClasses(day: Day, raw: seq<Class>)
    ensures var sorted := SortByKey(WithKeys(raw));
      Unflagged(Classes(Normalize(day, raw))) == Unflagged(Stored(Kept(sorted))) &&
      SortedByKey(Kept(sorted)) && multiset(Kept(sorted)) == multiset(Kept(WithKeys(raw)))
  {
    var sorted := SortByKey(WithKeys(raw));
    var laid := Lay(day, sorted, None);
    LayClasses(day, sorted, None);
    ClassesUnflagged(MarkConsecutive(laid));
    MarkedUnflagged(laid);
    ClassesUnflagged(laid);
    FilterSorted(Keeps, sorted);
    KeptPermutation(sorted, WithKeys(raw));
  }

  /** Every entry but the last is marked consecutive exactly when the next entry is a class
      that starts 0 to 10 minutes after it ends; the last entry is a class and is unmarked. */
  predicate MarksRight(xs: seq<Class>)
  {
    (forall i :: 0 <= i < |xs| - 1 ==> (xs[i].isConsecutive <==> Adjacent(xs, i))) &&
    (xs != [] ==> !xs[|xs| - 1].isFreePeriod && !xs[|xs| - 1].isConsecutive)
  }

  /** A processed day carries exactly the marks `MarksRight` describes. */
  lemma NormalizeMarks(day: Day, raw: seq<Class>)
    ensures MarksRight(Normalize(day, raw))
  {
    var laid := Lay(day, SortByKey(WithKeys(raw)), None);
    LayEndsWithClass(day, SortByKey(WithKeys(raw)), None);
    MarkedFlags(laid);
    assert Normalize(day, raw) == MarkConsecutive(laid);
  }

  /** The marks of a list that ends with a class. */
  lemma MarkedFlags(laid: seq<Class>)
    requires EndsWithClass(laid)
    ensures MarksRight(MarkConsecutive(laid))
  {
    var xs := MarkConsecutive(laid);
    forall i | 0 <= i < |xs| - 1
      ensures xs[i].isConsecutive <==> Adjacent(xs, i)
    {
      AdjacentAfterMarking(laid, i);
    }
  }

  /** Marking twice marks as once. */
  lemma MarkIdempotent(xs: seq<Class>)
    ensures MarkConsecutive(MarkConsecutive(xs)) == MarkConsecutive(xs)
  {
    var ms := MarkConsecutive(xs);
    forall i | 0 <= i < |xs|
      ensures MarkConsecutive(ms)[i] == ms[i]
    {
      AdjacentAfterMarking(xs, i);
      MarkOnlyFlags(xs, i);
    }
  }

  /** In a processed day every free period stands between two classes. */
  lemma NormalizeFreeFlanked(day: Day, raw: seq<Class>)
    ensures FreeFlanked(Normalize(day, raw), false)
  {
    LayFreeFlanked(day, SortByKey(WithKeys(raw)), None);
    MarkedFreeFlanked(Lay(day, SortByKey(WithKeys(raw)), None), false);
  }

  /** Marking leaves the free periods where they were. */
  lemma MarkedFreeFlanked(xs: seq<Class>, afterClass: bool)
    requires FreeFlanked(xs, afterClass)
    ensures FreeFlanked(MarkConsecutive(xs), afterClass)
  {
    var ms := MarkConsecutive(xs);
    forall i | 0 <= i < |ms|
      ensures ms[i].isFreePeriod == xs[i].isFreePeriod
    {
      MarkOnlyFlags(xs, i);
    }
  }

  /** A free period's 12-hour times are read back as the clock times of its two ends. */
  lemma FreePeriodTimes(day: Day, from: int, to: int)
    ensures var f := FreePeriod(day, from, to);
      ConvertTo24Hour(f.startTime) == Format24(from % MinutesPerDay) &&
      ConvertTo24Hour(f.endTime) == Format24(to % MinutesPerDay)
  {
    FormatTo12HourOfFormat24(from % MinutesPerDay);
    ConvertTo24HourOfFormat12(from % MinutesPerDay);
    FormatTo12HourOfFormat24(to % MinutesPerDay);
    ConvertTo24HourOfFormat12(to % MinutesPerDay);
  }

  /** The start of an entry whose key is a padded 24-hour time. */
  lemma PaddedStart(k: Keyed) returns (t: int)
    requires IsPadded24(k.key)
    ensures 0 <= t < MinutesPerDay && k.key == Format24(t) && KeyMinutes(k.key) == Int(t)
  {
    t := PaddedIsFormat24(k.key);
    KeyMinutesOfFormat24(t);
  }

  /** Entries sorted by padded 24-hour keys are sorted by their start times. */
  lemma SortedByStart(ks: seq<Keyed>, i: int, j: int)
    requires SortedByKey(ks) && 0 <= i < j < |ks|
    requires IsPadded24(ks[i].key) && IsPadded24(ks[j].key)
    ensures KeyMinutes(ks[i].key).Int? && KeyMinutes(ks[j].key).Int?
    ensures KeyMinutes(ks[i].key).value <= KeyMinutes(ks[j].key).value
  {
    var t := PaddedStart(ks[i]);
    var u := PaddedStart(ks[j]);
    KeyOrderIsTimeOrder(u, t);
  }

  /** A class in a list is among its classes. */
  lemma {:induction false} ClassesMember(xs: seq<Class>, i: int)
    requires 0 <= i < |xs| && !xs[i].isFreePeriod
    ensures xs[i] in Classes(xs)
    decreases |xs|
  {
    if i > 0 {
      ClassesMember(xs[1..], i - 1);
      assert xs[1..][i - 1] == xs[i];
    }
    ClassesAppend([xs[0]], xs[1..]);
    assert [xs[0]] + xs[1..] == xs;
  }

  /** Every stored class is one of the entries, with 12-hour times. */
  lemma {:induction false} StoredMember(ks: seq<Keyed>, x: Class) returns (k: Keyed)
    requires x in Stored(ks)
    ensures k in ks && x == Reformat(k.cls)
    decreases |ks|
  {
    if x == Reformat(ks[0].cls) {
      k := ks[0];
    } else {
      k := StoredMember(ks[1..], x);
    }
  }

  /** Each class of a processed day is one of the given classes, with 12-hour times and its
      consecutive flag recomputed; it was not a free period. */
  lemma NormalizedFrom(day: Day, raw: seq<Class>, i: int) returns (c: Class)
    requires 0 <= i < |Normalize(day, raw)| && !Normalize(day, raw)[i].isFreePeriod
    ensures c in raw && !c.isFreePeriod
    ensures Normalize(day, raw)[i] == Reformat(c).(isConsecutive := Normalize(day, raw)[i].isConsecutive)
  {
    var keyed := WithKeys(raw);
    var sorted := SortByKey(keyed);
    var laid := Lay(day, sorted, None);
    MarkOnlyFlags(laid, i);
    LayClasses(day, sorted, None);
    ClassesMember(laid, i);
    var k := StoredMember(Kept(sorted), laid[i]);
    KeptMember(sorted, k);
    assert k in multiset(keyed);
    c := k.cls;
  }

  /** When the loop keeps an entry it pushes a free period first exactly when more than 15
      minutes passed since the last class ended; the free period spans that gap. */
  lemma LayPushGap(day: Day, ks: seq<Keyed>, lastEnd: Option<int>)
    requires ks != [] && Keeps(ks[0])
    ensures var start := KeyMinutes(ks[0].key).value;
      var xs := Lay(day, ks, lastEnd);
      xs != [] && (xs[0].isFreePeriod <==> lastEnd.Some? && start - lastEnd.value > 15) &&
      (xs[0].isFreePeriod ==> xs[0] == FreePeriod(day, lastEnd.value, start) && xs[1] == Reformat(ks[0].cls)) &&
      (!xs[0].isFreePeriod ==> xs[0] == Reformat(ks[0].cls))
  {
    LayStep(day, ks, lastEnd);
    var start := KeyMinutes(ks[0].key).value;
    var gap := Gap(day, lastEnd, start);
    assert gap != [] <==> lastEnd.Some? && start - lastEnd.value > 15;
    assert gap != [] ==> gap[0] == FreePeriod(day, lastEnd.value, start);
    PushHead(gap, Reformat(ks[0].cls), Lay(day, ks[1..], Some(EndMinutes(ks[0].cls, start))));
  }

  lemma PushHead(gap: seq<Class>, c: Class, tail: seq<Class>)
    requires |gap| <= 1 && (gap != [] ==> gap[0].isFreePeriod) && !c.isFreePeriod
    ensures var xs := gap + [c] + tail;
      (xs[0].isFreePeriod <==> gap != []) && (gap != [] ==> xs[0] == gap[0] && xs[1] == c) &&
      (gap == [] ==> xs[0] == c)
  {
  }
}
