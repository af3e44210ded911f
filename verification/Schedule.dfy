/**
 The calendar of scheduled jobs. Instants are microseconds since 1970-01-01T00:00 UTC; a time zone is a
 fixed offset of whole minutes, so that a local instant is a UTC instant plus that offset.
 */
module Schedule {
  import opened Prelude
  import Text

  const SECOND: int := 1_000_000
  const MINUTE: int := 60 * SECOND
  const DAY: int := 1440 * MINUTE

  /** Monday is 0; day 0 of the epoch was a Thursday. */
  function Weekday(day: int): int {
    (day + 3) % 7
  }

  // ---------------------------------------------------------------- HH:MM

  predicate IsDigit(c: char) { '0' <= c <= '9' }

  predicate AllDigits(s: string) {
    s != "" && forall i :: 0 <= i < |s| ==> IsDigit(s[i])
  }

  function ToNat(s: string): nat
    requires forall i :: 0 <= i < |s| ==> IsDigit(s[i])
  {
    if s == "" then 0
    else
      assert IsDigit(s[|s| - 1]);
      ToNat(s[..|s| - 1]) * 10 + (s[|s| - 1] as int - '0' as int)
  }

  /** `value.split(":")`. */
  function SplitColon(s: string): (r: seq<string>)
    ensures |r| >= 1
  {
    if s == "" then [""]
    else
      var rest := SplitColon(s[1..]);
      if s[0] == ':' then [""] + rest else [[s[0]] + rest[0]] + rest[1..]
  }

  /** The checks of `_validate_hhmm`, and the same ones for each element of `times`. */
  predicate ValidTime(s: string) {
    var parts := SplitColon(s);
    |parts| == 2 && AllDigits(parts[0]) && AllDigits(parts[1]) && ToNat(parts[0]) <= 23 && ToNat(parts[1]) <= 59
  }

  /** `_minutes_of_day` of a valid time. */
  function MinutesOfDay(s: string): (m: nat)
    requires ValidTime(s)
    ensures m < 1440
  {
    ToNat(SplitColon(s)[0]) * 60 + ToNat(SplitColon(s)[1])
  }

  // ---------------------------------------------------------------- what a time of day says

  function Zeros(z: nat): (r: string)
    ensures |r| == z && forall i :: 0 <= i < z ==> r[i] == '0'
  {
    seq(z, _ => '0')
  }

  /** `s` is the decimal numeral of `n`, with any number of leading zeros. */
  ghost predicate Denotes(s: string, n: nat) {
    exists z: nat :: s == Zeros(z) + Text.Numeral(n)
  }

  ghost predicate ReadsAs(s: string, hh: string, mm: string, h: nat, n: nat) {
    s == hh + ":" + mm && Denotes(hh, h) && Denotes(mm, n) && h <= 23 && n <= 59
  }

  /** `s` shows an hour and a minute of the day, and `m` minutes have passed then. */
  ghost predicate Reads(s: string, m: nat) {
    exists hh: string, mm: string, h: nat, n: nat :: ReadsAs(s, hh, mm, h, n) && m == 60 * h + n
  }

  lemma ToNatSnoc(s: string, c: char)
    requires (forall i :: 0 <= i < |s| ==> IsDigit(s[i])) && IsDigit(c)
    ensures (forall i :: 0 <= i < |s + [c]| ==> IsDigit((s + [c])[i]))
    ensures ToNat(s + [c]) == ToNat(s) * 10 + (c as int - '0' as int)
  {
    assert (s + [c])[..|s|] == s && (s + [c])[|s|] == c;
  }

  lemma {:induction false} ToNatZeros(z: nat)
    ensures (forall i :: 0 <= i < z ==> IsDigit(Zeros(z)[i])) && ToNat(Zeros(z)) == 0
  {
    if z > 0 {
      ToNatZeros(z - 1);
      ToNatSnoc(Zeros(z - 1), '0');
      assert Zeros(z) == Zeros(z - 1) + ['0'];
    }
  }

  /** A numeral with leading zeros is read as its number. */
  lemma {:induction false} DenotedValue(z: nat, n: nat)
    ensures AllDigits(Zeros(z) + Text.Numeral(n)) && ToNat(Zeros(z) + Text.Numeral(n)) == n
  {
    if n < 10 {
      ToNatZeros(z);
      ToNatSnoc(Zeros(z), Text.Digit(n));
      assert Text.Numeral(n) == [Text.Digit(n)];
    } else {
      DenotedValue(z, n / 10);
      ToNatSnoc(Zeros(z) + Text.Numeral(n / 10), Text.Digit(n % 10));
      assert Zeros(z) + Text.Numeral(n) == Zeros(z) + Text.Numeral(n / 10) + [Text.Digit(n % 10)];
    }
  }

  /** A text of digits is the numeral of what it is read as. */
  lemma {:induction false} DigitsDenote(s: string)
    requires AllDigits(s)
    ensures Denotes(s, ToNat(s))
  {
    var n := |s| - 1;
    var front, d := s[..n], ReadDigit(s[n]);
    assert s == front + [Text.Digit(d)];
    ToNatSnoc(front, Text.Digit(d));
    if front == "" {
      OneDigit(d);
    } else {
      DigitsDenote(front);
      MoreDigits(front, ToNat(front), d);
    }
  }

  function ReadDigit(c: char): (d: nat)
    requires IsDigit(c)
    ensures d < 10 && Text.Digit(d) == c
  {
    c as int - '0' as int
  }

  lemma OneDigit(d: nat)
    requires d < 10
    ensures Denotes([Text.Digit(d)], d)
  {
    assert [Text.Digit(d)] == Zeros(0) + Text.Numeral(d);
  }

  lemma MoreDigits(front: string, m: nat, d: nat)
    requires Denotes(front, m) && d < 10
    ensures Denotes(front + [Text.Digit(d)], m * 10 + d)
  {
    var z: nat :| front == Zeros(z) + Text.Numeral(m);
    if m == 0 {
      assert Text.Numeral(0) == ['0'] && Zeros(z) + ['0'] == Zeros(z + 1);
      assert front + [Text.Digit(d)] == Zeros(z + 1) + Text.Numeral(d);
    } else {
      assert Text.Numeral(m * 10 + d) == Text.Numeral(m) + [Text.Digit(d)];
      assert front + [Text.Digit(d)] == Zeros(z) + Text.Numeral(m * 10 + d);
    }
  }

  lemma DenotesDigits(s: string, n: nat)
    requires Denotes(s, n)
    ensures AllDigits(s) && ToNat(s) == n
  {
    var z: nat :| s == Zeros(z) + Text.Numeral(n);
    DenotedValue(z, n);
  }

  lemma {:induction false} SplitNone(s: string)
    requires ':' !in s
    ensures SplitColon(s) == [s]
  {
    if s != "" {
      SplitNone(s[1..]);
      assert s[0] in s && [s[0]] + s[1..] == s;
    }
  }

  /** A text with one colon splits there. */
  lemma {:induction false} SplitOnce(a: string, b: string)
    requires ':' !in a && ':' !in b
    ensures SplitColon(a + ":" + b) == [a, b]
  {
    var s := a + ":" + b;
    if a == "" {
      assert s[1..] == b;
      SplitNone(b);
    } else {
      assert s[1..] == a[1..] + ":" + b && s[0] == a[0] && a[0] in a;
      SplitOnce(a[1..], b);
      assert [a[0]] + a[1..] == a;
    }
  }

  lemma {:induction false} SplitJoins(s: string)
    ensures |SplitColon(s)| == 1 ==> SplitColon(s)[0] == s
    ensures |SplitColon(s)| == 2 ==> s == SplitColon(s)[0] + ":" + SplitColon(s)[1]
  {
    if s != "" {
      SplitJoins(s[1..]);
      assert s == [s[0]] + s[1..];
    }
  }

  lemma ValidReads(s: string)
    requires ValidTime(s)
    ensures Reads(s, 60 * ToNat(SplitColon(s)[0]) + ToNat(SplitColon(s)[1]))
  {
    var hh, mm := SplitColon(s)[0], SplitColon(s)[1];
    SplitJoins(s);
    DigitsDenote(hh);
    DigitsDenote(mm);
    assert ReadsAs(s, hh, mm, ToNat(hh), ToNat(mm));
  }

  /** What the validation accepts, exactly, and what a time of day that it accepts says. */
  lemma ValidTimeExactly(s: string)
    ensures ValidTime(s) <==> exists m :: Reads(s, m)
    ensures ValidTime(s) ==> forall m :: Reads(s, m) <==> m == MinutesOfDay(s)
  {
    if ValidTime(s) { ValidReads(s); }
    forall m | Reads(s, m) ensures ValidTime(s) && m == MinutesOfDay(s) {
      var hh: string, mm: string, h: nat, n: nat :| ReadsAs(s, hh, mm, h, n) && m == 60 * h + n;
      DenotesDigits(hh, h);
      DenotesDigits(mm, n);
      SplitOnce(hh, mm);
    }
  }

  /** Day 0 of the epoch was a Thursday, and the weekdays follow each other. */
  lemma WeekdayCalendar(day: int)
    ensures Weekday(0) == 3 && 0 <= Weekday(day) <= 6
    ensures Weekday(day + 1) == if Weekday(day) == 6 then 0 else Weekday(day) + 1
  {
  }

  /** A minute has sixty seconds of a million microseconds, and a day 24 hours of sixty minutes. */
  lemma ClockUnits(t: int)
    ensures Slot(t + 1_000_000) == Slot(t) + 1 && Slot(t + MINUTE) == Slot(t) + 60
    ensures (t + 24 * 60 * MINUTE) / DAY == t / DAY + 1
  {
  }

  // ---------------------------------------------------------------- configurations

  /** OtherKind stands for every stored value from which `calculate_next_run` raises. */
  datatype Config =
    | Daily(times: seq<string>)
    | Interval(minutes: int)
    | Window(minutes: int, weekdays: seq<int>, start: string, end: string)
    | OtherKind

  /** `validate_schedule_config`. A kind it does not know is not looked at. */
  predicate Validated(c: Config) {
    match c
    case Daily(times) => times != [] && forall i :: 0 <= i < |times| ==> ValidTime(times[i])
    case Interval(minutes) => minutes >= 1
    case Window(minutes, weekdays, start, end) =>
      && minutes >= 1
      && weekdays != [] && (forall i :: 0 <= i < |weekdays| ==> 0 <= weekdays[i] <= 6)
      && ValidTime(start) && ValidTime(end) && MinutesOfDay(start) < MinutesOfDay(end)
    case OtherKind => true
  }

  /** A configuration the create and update calls can store. */
  predicate Storable(c: Config) {
    Validated(c) && !c.OtherKind?
  }

  ghost predicate SaysTime(s: string) {
    exists m :: Reads(s, m)
  }

  /** What create and update accept, exactly, by what the times say. */
  lemma ValidatedExactly(c: Config)
    ensures c.Daily? ==>
      (Validated(c) <==> c.times != [] && forall i :: 0 <= i < |c.times| ==> SaysTime(c.times[i]))
    ensures c.Interval? ==> (Validated(c) <==> c.minutes > 0)
    ensures c.Window? ==>
      (Validated(c)
       <==> (c.minutes > 0 && c.weekdays != [] && (forall i :: 0 <= i < |c.weekdays| ==> c.weekdays[i] in Week)
             && exists m, n :: Reads(c.start, m) && Reads(c.end, n) && m < n))
  {
    match c
    case Daily(times) =>
      forall i | 0 <= i < |times| ensures ValidTime(times[i]) <==> SaysTime(times[i]) {
        ValidTimeExactly(times[i]);
      }
    case Window(_, _, start, end) =>
      ValidTimeExactly(start);
      ValidTimeExactly(end);
    case _ =>
  }

  /** Monday to Sunday. */
  const Week: seq<int> := [0, 1, 2, 3, 4, 5, 6]

  // ---------------------------------------------------------------- what each kind promises

  /** `t` is one of the points start + k * minutes <= end of an allowed weekday. */
  ghost predicate WindowPoint(c: Config, t: int)
    requires c.Window? && Storable(c)
  {
    && Weekday(t / DAY) in c.weekdays
    && exists k: nat :: WindowOffset(c, t % DAY, k)
  }

  ghost predicate WindowOffset(c: Config, offset: int, k: nat)
    requires c.Window? && Storable(c)
  {
    offset == (MinutesOfDay(c.start) + k * c.minutes) * MINUTE
      && MinutesOfDay(c.start) + k * c.minutes <= MinutesOfDay(c.end)
  }

  ghost predicate DailyPoint(c: Config, t: int)
    requires c.Daily? && Storable(c)
  {
    exists i :: 0 <= i < |c.times| && AtTime(c, i, t)
  }

  ghost predicate AtTime(c: Config, i: nat, t: int)
    requires c.Daily? && Storable(c) && i < |c.times|
  {
    t % DAY == MinutesOfDay(c.times[i]) * MINUTE
  }

  /** `r` is the next run after the local instant `current`. */
  ghost predicate IsNextLocal(c: Config, current: int, r: int)
    requires Storable(c)
  {
    match c
    case Interval(minutes) => r == current + minutes * MINUTE
    case Window(_, _, _, _) =>
      WindowPoint(c, r) && r > current && forall t :: WindowPoint(c, t) && t > current ==> r <= t
    case Daily(_) =>
      DailyPoint(c, r) && r > current && forall t :: DailyPoint(c, t) && t > current ==> r <= t
  }

  ghost predicate IsNextRun(c: Config, zone: int, after: int, r: int)
    requires Storable(c)
  {
    IsNextLocal(c, after + zone * MINUTE, r + zone * MINUTE)
  }

  /** The specification determines the instant. */
  lemma NextRunUnique(c: Config, zone: int, after: int, r: int, q: int)
    requires Storable(c) && IsNextRun(c, zone, after, r) && IsNextRun(c, zone, after, q)
    ensures r == q
  {
  }

  /** A daily point is an instant whose local time of day is one of the times. */
  lemma DailyPointExactly(c: Config, t: int)
    requires c.Daily? && Storable(c)
    ensures DailyPoint(c, t)
      <==> exists i: nat, m: nat :: i < |c.times| && Reads(c.times[i], m) && t % DAY == m * MINUTE
  {
    if DailyPoint(c, t) {
      var i: nat :| i < |c.times| && AtTime(c, i, t);
      ValidTimeExactly(c.times[i]);
    }
    if i: nat, m: nat :| i < |c.times| && Reads(c.times[i], m) && t % DAY == m * MINUTE {
      ValidTimeExactly(c.times[i]);
      assert AtTime(c, i, t);
    }
  }

  /** A window point lies a whole number of intervals after the start of an allowed day's window, within it. */
  lemma WindowPointExactly(c: Config, t: int, first: nat, last: nat)
    requires c.Window? && Storable(c) && Reads(c.start, first) && Reads(c.end, last)
    ensures WindowPoint(c, t)
      <==> && Weekday(t / DAY) in c.weekdays
           && exists k: nat :: AfterStart(t, first, k, c.minutes) && first + k * c.minutes <= last
  {
    ValidTimeExactly(c.start);
    ValidTimeExactly(c.end);
    if WindowPoint(c, t) {
      var k: nat :| WindowOffset(c, t % DAY, k);
      assert AfterStart(t, first, k, c.minutes);
    }
    if k: nat :| AfterStart(t, first, k, c.minutes) && first + k * c.minutes <= last {
      assert WindowOffset(c, t % DAY, k);
    }
  }

  /** `t` is `k` intervals after the minute `first` of its day. */
  predicate AfterStart(t: int, first: nat, k: nat, minutes: int) {
    t % DAY == (first + k * minutes) * MINUTE
  }

  // ---------------------------------------------------------------- the window search

  /** Among the points of one day, those before the k-th are at or before the instant `limit`. */
  ghost predicate DayBelow(c: Config, day: int, k: nat, limit: int)
    requires c.Window? && Storable(c)
  {
    forall j: nat :: j < k ==> day * DAY + (MinutesOfDay(c.start) + j * c.minutes) * MINUTE <= limit
  }

  lemma PointOfDay(c: Config, t: int) returns (k: nat)
    requires c.Window? && Storable(c) && WindowPoint(c, t)
    ensures WindowOffset(c, t % DAY, k)
    ensures t == (t / DAY) * DAY + (MinutesOfDay(c.start) + k * c.minutes) * MINUTE
  {
    k :| WindowOffset(c, t % DAY, k);
  }

  lemma MakePoint(c: Config, day: int, k: nat)
    requires c.Window? && Storable(c) && Weekday(day) in c.weekdays
    requires MinutesOfDay(c.start) + k * c.minutes <= MinutesOfDay(c.end)
    ensures var t := day * DAY + (MinutesOfDay(c.start) + k * c.minutes) * MINUTE;
      t / DAY == day && WindowPoint(c, t)
  {
    var offset := (MinutesOfDay(c.start) + k * c.minutes) * MINUTE;
    MulMonotone(0, k, c.minutes);
    assert 0 <= offset < DAY;
    DaySplit(day, offset);
    assert WindowOffset(c, (day * DAY + offset) % DAY, k);
  }

  lemma DaySplit(day: int, offset: int)
    requires 0 <= offset < DAY
    ensures (day * DAY + offset) / DAY == day && (day * DAY + offset) % DAY == offset
  {
  }

  /** From the k-th point of a day on, all points of that day are at or after the k-th. */
  lemma LaterPoints(c: Config, day: int, k: nat, current: int)
    requires c.Window? && Storable(c) && DayBelow(c, day, k, current)
    ensures var candidate := day * DAY + (MinutesOfDay(c.start) + k * c.minutes) * MINUTE;
      forall t :: WindowPoint(c, t) && t / DAY == day && t > current ==> candidate <= t
  {
    var candidate := day * DAY + (MinutesOfDay(c.start) + k * c.minutes) * MINUTE;
    forall t | WindowPoint(c, t) && t / DAY == day && t > current ensures candidate <= t {
      var j := PointOfDay(c, t);
      if j >= k { MulMonotone(k, j, c.minutes); }
    }
  }

  lemma NoLaterPoints(c: Config, day: int, k: nat, current: int)
    requires c.Window? && Storable(c) && DayBelow(c, day, k, current)
    requires MinutesOfDay(c.start) + k * c.minutes > MinutesOfDay(c.end)
    ensures forall t :: WindowPoint(c, t) && t / DAY == day ==> t <= current
  {
    forall t | WindowPoint(c, t) && t / DAY == day ensures t <= current {
      var j := PointOfDay(c, t);
      if j >= k { MulMonotone(k, j, c.minutes); }
    }
  }

  /** The inner loop of `_next_window_interval` on one allowed day. */
  method FirstOfDay(c: Config, day: int, current: int) returns (r: Option<int>)
    requires c.Window? && Storable(c) && Weekday(day) in c.weekdays
    ensures r.Some? ==> WindowPoint(c, r.value) && r.value / DAY == day && r.value > current
    ensures r.Some? ==> forall t :: WindowPoint(c, t) && t / DAY == day && t > current ==> r.value <= t
    ensures r.None? ==> forall t :: WindowPoint(c, t) && t / DAY == day ==> t <= current
  {
    var windowEnd := day * DAY + MinutesOfDay(c.end) * MINUTE;
    var candidate := day * DAY + MinutesOfDay(c.start) * MINUTE;
    ghost var k: nat := 0;
    while candidate <= windowEnd
      invariant candidate == day * DAY + (MinutesOfDay(c.start) + k * c.minutes) * MINUTE
      invariant DayBelow(c, day, k, current)
      decreases windowEnd - candidate
    {
      if candidate > current {
        MakePoint(c, day, k);
        LaterPoints(c, day, k, current);
        return Some(candidate);
      }
      candidate := candidate + c.minutes * MINUTE;
      k := k + 1;
    }
    NoLaterPoints(c, day, k, current);
    r := None;
  }

  /** Some allowed day among the next eight, today included, still has a point after `current`. */
  lemma EightDaysSuffice(c: Config, current: int) returns (t: int)
    requires c.Window? && Storable(c)
    ensures WindowPoint(c, t) && t > current && current / DAY <= t / DAY <= current / DAY + 7
  {
    var today := current / DAY;
    var day := DayAhead(today, c.weekdays[0]);
    MakePoint(c, day, 0);
    t := day * DAY + (MinutesOfDay(c.start) + 0 * c.minutes) * MINUTE;
  }

  /** Every weekday comes round within the next seven days. */
  lemma DayAhead(today: int, w: int) returns (day: int)
    requires 0 <= w < 7
    ensures Weekday(day) == w && today < day <= today + 7
  {
    var ahead := (w - Weekday(today)) % 7;
    day := today + if ahead == 0 then 7 else ahead;
  }

  /** The eighth day is needed: with one allowed weekday, after its last point the next one is seven days later. */
  lemma SevenDaysDoNotSuffice(c: Config, current: int, t: int)
    requires c.Window? && Storable(c) && c.weekdays == [Weekday(current / DAY)]
    requires current % DAY >= MinutesOfDay(c.end) * MINUTE
    requires WindowPoint(c, t) && t > current
    ensures t / DAY >= current / DAY + 7
  {
    var k := PointOfDay(c, t);
    assert Weekday(t / DAY) == Weekday(current / DAY);
  }

  /** No point of a day before `day` comes after `current`. */
  ghost predicate PastBefore(c: Config, current: int, day: int)
    requires c.Window? && Storable(c)
  {
    forall t :: WindowPoint(c, t) && t / DAY < day ==> t <= current
  }

  lemma DayIsPast(c: Config, current: int, day: int)
    requires c.Window? && Storable(c) && PastBefore(c, current, day)
    requires Weekday(day) in c.weekdays ==> forall t :: WindowPoint(c, t) && t / DAY == day ==> t <= current
    ensures PastBefore(c, current, day + 1)
  {
  }

  lemma FirstIsNext(c: Config, current: int, day: int, r: int)
    requires c.Window? && Storable(c) && PastBefore(c, current, day)
    requires WindowPoint(c, r) && r / DAY == day && r > current
    requires forall t :: WindowPoint(c, t) && t / DAY == day && t > current ==> r <= t
    ensures IsNextLocal(c, current, r)
  {
    forall t | WindowPoint(c, t) && t > current ensures r <= t { DayOrder(r, t); }
  }

  lemma DayOrder(r: int, t: int)
    ensures r / DAY < t / DAY ==> r < t
  {
  }

  /** `_next_window_interval` on a stored configuration: the error after the loop is never reached. */
  method NextWindow(c: Config, current: int) returns (r: Option<int>)
    requires c.Window? && Storable(c)
    ensures r.Some? && IsNextLocal(c, current, r.value)
    ensures r.value / DAY <= current / DAY + 7
  {
    var today := current / DAY;
    for offset := 0 to 8
      invariant PastBefore(c, current, today + offset)
    {
      if Weekday(today + offset) in c.weekdays {
        r := FirstOfDay(c, today + offset, current);
        if r.Some? {
          FirstIsNext(c, current, today + offset, r.value);
          return;
        }
      }
      DayIsPast(c, current, today + offset);
    }
    ghost var t := EightDaysSuffice(c, current);
    assert false;
    r := None;
  }

  // ---------------------------------------------------------------- the daily search

  /** The loop over `times` and the final `min`. */
  method NextDaily(c: Config, current: int) returns (r: int)
    requires c.Daily? && Storable(c)
    ensures IsNextLocal(c, current, r) && r <= current + DAY
  {
    var today := current / DAY;
    r := DailyCandidate(MinutesOfDay(c.times[0]), today, current);
    assert AtTime(c, 0, r);
    var i := 1;
    while i < |c.times|
      invariant 1 <= i <= |c.times|
      invariant DailyPoint(c, r) && current < r <= current + DAY
      invariant forall j, t :: 0 <= j < i && AtTime(c, j, t) && t > current ==> r <= t
    {
      var candidate := DailyCandidate(MinutesOfDay(c.times[i]), today, current);
      assert AtTime(c, i, candidate);
      if candidate < r {
        r := candidate;
      }
      i := i + 1;
    }
  }

  method DailyCandidate(m: nat, today: int, current: int) returns (r: int)
    requires m < 1440 && today == current / DAY
    ensures r % DAY == m * MINUTE && current < r <= current + DAY
    ensures forall t :: t > current && t % DAY == m * MINUTE ==> r <= t
  {
    r := today * DAY + m * MINUTE;
    assert r % DAY == m * MINUTE;
    if r <= current {
      r := r + DAY;
      assert r % DAY == m * MINUTE;
    }
    forall t | t > current && t % DAY == m * MINUTE ensures r <= t {
      assert t == (t / DAY) * DAY + m * MINUTE && r == (r / DAY) * DAY + m * MINUTE;
    }
  }

  // ---------------------------------------------------------------- calculate_next_run

  /** Below a window point after `current` there is a least one. */
  lemma LeastWindowPoint(c: Config, current: int, t: int) returns (r: int)
    requires c.Window? && Storable(c) && WindowPoint(c, t) && t > current
    ensures IsNextLocal(c, current, r)
    decreases t - current
  {
    if q :| WindowPoint(c, q) && current < q < t {
      r := LeastWindowPoint(c, current, q);
    } else {
      r := t;
    }
  }

  lemma LeastDailyPoint(c: Config, current: int, t: int) returns (r: int)
    requires c.Daily? && Storable(c) && DailyPoint(c, t) && t > current
    ensures IsNextLocal(c, current, r)
    decreases t - current
  {
    if q :| DailyPoint(c, q) && current < q < t {
      r := LeastDailyPoint(c, current, q);
    } else {
      r := t;
    }
  }

  lemma DailyPointAhead(c: Config, current: int) returns (t: int)
    requires c.Daily? && Storable(c)
    ensures DailyPoint(c, t) && t > current
  {
    var m := MinutesOfDay(c.times[0]);
    t := (current / DAY + 1) * DAY + m * MINUTE;
    DaySplit(current / DAY + 1, m * MINUTE);
    assert AtTime(c, 0, t);
  }

  /** A stored configuration always has a next run. */
  lemma NextRunExists(c: Config, zone: int, after: int) returns (r: int)
    requires Storable(c)
    ensures IsNextRun(c, zone, after, r)
  {
    var current := after + zone * MINUTE;
    var next: int;
    match c {
      case Interval(minutes) => next := current + minutes * MINUTE;
      case Window(_, _, _, _) =>
        var t := EightDaysSuffice(c, current);
        next := LeastWindowPoint(c, current, t);
      case Daily(times) =>
        var t := DailyPointAhead(c, current);
        next := LeastDailyPoint(c, current, t);
    }
    r := next - zone * MINUTE;
  }

  lemma NextRunIsDefined(c: Config, zone: int, after: int)
    requires Storable(c)
    ensures exists r :: IsNextRun(c, zone, after, r)
  {
    var r := NextRunExists(c, zone, after);
  }

  /** The value of `calculate_next_run` on a stored configuration. */
  ghost function NextRun(c: Config, zone: int, after: int): (r: int)
    requires Storable(c)
    ensures IsNextRun(c, zone, after, r) && r > after
  {
    NextRunIsDefined(c, zone, after);
    var r :| IsNextRun(c, zone, after, r);
    NextRunLater(c, zone, after, r);
    r
  }

  datatype ScheduleError = Unsupported | BadConfig

  /** What makes `calculate_next_run` raise although the configuration has a known kind. */
  method CalculateNextRun(c: Config, zone: int, after: int) returns (r: Result<int, ScheduleError>)
    requires !c.OtherKind? ==> Validated(c)
    ensures r.Ok? <==> !c.OtherKind?
    ensures r.Ok? ==> Storable(c) && r.value == NextRun(c, zone, after) && r.value > after
  {
    var current := after + zone * MINUTE;
    match c
    case OtherKind => r := Err(Unsupported);
    case Interval(minutes) => r := Ok(current + minutes * MINUTE - zone * MINUTE);
    case Window(_, _, _, _) =>
      var next := NextWindow(c, current);
      r := Ok(next.value - zone * MINUTE);
    case Daily(_) =>
      var next := NextDaily(c, current);
      r := Ok(next - zone * MINUTE);
  }

  /** Every next run is strictly later than the instant it is computed from. */
  lemma NextRunLater(c: Config, zone: int, after: int, r: int)
    requires Storable(c) && IsNextRun(c, zone, after, r)
    ensures r > after
  {
  }

  /** The second an instant falls in, as the idempotency key shows it. */
  function Slot(t: int): int { t / SECOND }

  /**
   The instant computed at `now` for a schedule that was due at `due` falls in a later second than `due`:
   window and daily points lie on whole minutes and an interval is at least one minute long.
   */
  lemma NextSlotLater(c: Config, zone: int, due: int, now: int, r: int)
    requires Storable(c) && due <= now && IsNextRun(c, zone, now, r)
    ensures Slot(r) > Slot(due)
  {
    match c
    case Interval(minutes) => MinuteLater(due, r);
    case Window(_, _, _, _) =>
      var t := r + zone * MINUTE;
      var k := PointOfDay(c, t);
      WholeMinute(t, t / DAY * 1440 + MinutesOfDay(c.start) + k * c.minutes, zone);
      NextSecond(due, r);
    case Daily(_) =>
      var t := r + zone * MINUTE;
      var i :| 0 <= i < |c.times| && AtTime(c, i, t);
      WholeMinute(t, t / DAY * 1440 + MinutesOfDay(c.times[i]), zone);
      NextSecond(due, r);
  }

  lemma MinuteLater(due: int, r: int)
    requires r >= due + MINUTE
    ensures Slot(r) > Slot(due)
  {
  }

  lemma NextSecond(due: int, r: int)
    requires r > due && r % SECOND == 0
    ensures Slot(r) > Slot(due)
  {
  }

  lemma WholeMinute(t: int, m: int, zone: int)
    requires t == m * MINUTE
    ensures (t - zone * MINUTE) % SECOND == 0
  {
    WholeSecond((m - zone) * 60);
  }

  lemma WholeSecond(n: int)
    ensures (n * SECOND) % SECOND == 0
  {
  }
}
