/** Worked minutes and their classification. Times are whole seconds of Bogotá local time (a fixed UTC-5),
    day `d` starting at `d * DAY`. */
module Overtime {
  import opened Wrappers

  const DAY := 86400
  const DAY_MINUTES := 1440
  const UTC_OFFSET := 5 * 3600
  const MILLIS_PER_DAY := 86400000

  type MinuteOfDay = m: int | 0 <= m < 1440

  function Max(a: int, b: int): int { if a < b then b else a }

  function Min(a: int, b: int): int { if a < b then a else b }

  /** `Math.round` of a number of seconds expressed in minutes: halves go up. */
  function RoundMinutes(seconds: int): int { (seconds + 30) / 60 }

  // ----- The night shift, tick by tick -----

  /** Whether a time of day is inside a night window given in the same unit. */
  predicate InNight(time: int, start: int, end: int) {
    if start > end then time >= start || time < end else start <= time < end
  }

  /** How many of the ticks `a, a + 1, ..., b - 1` are in the window, with `day` ticks to a day. */
  function CountNight(a: int, b: int, start: int, end: int, day: int): nat
    requires day > 0
    decreases b - a
  {
    if a >= b then 0 else CountNight(a, b - 1, start, end, day) + if InNight((b - 1) % day, start, end) then 1 else 0
  }

  lemma {:induction false} CountIsAdditive(a: int, m: int, b: int, start: int, end: int, day: int)
    requires day > 0 && a <= m <= b
    ensures CountNight(a, b, start, end, day) == CountNight(a, m, start, end, day) + CountNight(m, b, start, end, day)
    decreases b - m
  {
    if m < b {
      CountIsAdditive(a, m, b - 1, start, end, day);
    }
  }

  lemma {:induction false} CountUniform(a: int, b: int, start: int, end: int, day: int, night: bool)
    requires day > 0 && a <= b
    requires forall t :: a <= t < b ==> InNight(t % day, start, end) == night
    ensures CountNight(a, b, start, end, day) == if night then b - a else 0
    decreases b - a
  {
    if a < b {
      CountUniform(a, b - 1, start, end, day, night);
    }
  }

  // ----- The night shift, by intersection of intervals -----

  /** The windows of day `d`, in seconds: the evening and the morning part when the shift crosses midnight. */
  function Windows(d: int, ns: MinuteOfDay, ne: MinuteOfDay): seq<(int, int)> {
    var midnight := d * DAY;
    if ns > ne then [(midnight + ns * 60, midnight + DAY), (midnight, midnight + ne * 60)]
    else [(midnight + ns * 60, midnight + ne * 60)]
  }

  /** The seconds that `[s, e)` shares with a window. */
  function Shared(s: int, e: int, w: (int, int)): int {
    Max(0, Min(e, w.1) - Max(s, w.0))
  }

  function SumRounded(s: int, e: int, ws: seq<(int, int)>): int {
    if ws == [] then 0 else SumRounded(s, e, ws[..|ws| - 1]) + RoundMinutes(Shared(s, e, ws[|ws| - 1]))
  }

  function SumShared(s: int, e: int, ws: seq<(int, int)>): int {
    if ws == [] then 0 else SumShared(s, e, ws[..|ws| - 1]) + Shared(s, e, ws[|ws| - 1])
  }

  /** The rounded minutes contributed by day `d` and the days after it. */
  function NightFrom(s: int, e: int, ns: MinuteOfDay, ne: MinuteOfDay, d: int): int
    decreases e / DAY - d
  {
    if d > e / DAY then 0 else SumRounded(s, e, Windows(d, ns, ne)) + NightFrom(s, e, ns, ne, d + 1)
  }

  function NightOverlap(s: int, e: int, ns: MinuteOfDay, ne: MinuteOfDay): int {
    NightFrom(s, e, ns, ne, s / DAY)
  }

  /** The same sum without rounding, in seconds. */
  function ExactFrom(s: int, e: int, ns: MinuteOfDay, ne: MinuteOfDay, d: int): int
    decreases e / DAY - d
  {
    if d > e / DAY then 0 else SumShared(s, e, Windows(d, ns, ne)) + ExactFrom(s, e, ns, ne, d + 1)
  }

  lemma {:induction false} SumRoundedNext(s: int, e: int, ws: seq<(int, int)>, i: nat)
    requires i < |ws|
    ensures SumRounded(s, e, ws[..i + 1]) == SumRounded(s, e, ws[..i]) + RoundMinutes(Shared(s, e, ws[i]))
  {
    assert ws[..i + 1][..i] == ws[..i];
  }

  /** The loop over the windows of one day. */
  method AddWindows(start: int, end: int, windows: seq<(int, int)>) returns (minutes: int)
    ensures minutes == SumRounded(start, end, windows)
  {
    minutes := 0;
    for i := 0 to |windows|
      invariant minutes == SumRounded(start, end, windows[..i])
    {
      SumRoundedNext(start, end, windows, i);
      var (wStart, wEnd) := windows[i];
      var oStart := if start > wStart then start else wStart;
      var oEnd := if end < wEnd then end else wEnd;
      if oStart < oEnd {
        minutes := minutes + RoundMinutes(oEnd - oStart);
      }
    }
    assert windows[..|windows|] == windows;
  }

  method ComputeNightOverlap(start: int, end: int, ns: MinuteOfDay, ne: MinuteOfDay) returns (total: int)
    ensures total == NightOverlap(start, end, ns, ne)
  {
    total := 0;
    var day := start / DAY;
    var lastDay := end / DAY;
    while day <= lastDay
      invariant total + NightFrom(start, end, ns, ne, day) == NightOverlap(start, end, ns, ne)
      decreases lastDay - day
    {
      var minutes := AddWindows(start, end, Windows(day, ns, ne));
      total := total + minutes;
      day := day + 1;
    }
  }

  // ----- The interval form counts exactly -----

  lemma TimeWithinDay(t: int, d: int)
    requires d * DAY <= t < (d + 1) * DAY
    ensures t % DAY == t - d * DAY && t / DAY == d
  {
  }

  lemma {:induction false} SumOfWindows(s: int, e: int, d: int, ns: MinuteOfDay, ne: MinuteOfDay)
    ensures var ws := Windows(d, ns, ne);
            if ns > ne then SumShared(s, e, ws) == Shared(s, e, ws[0]) + Shared(s, e, ws[1])
                         && SumRounded(s, e, ws)
                              == RoundMinutes(Shared(s, e, ws[0])) + RoundMinutes(Shared(s, e, ws[1]))
            else SumShared(s, e, ws) == Shared(s, e, ws[0]) && SumRounded(s, e, ws) == RoundMinutes(Shared(s, e, ws[0]))
  {
    var ws := Windows(d, ns, ne);
    var one := [ws[0]];
    assert one[..0] == [];
    assert SumShared(s, e, one) == Shared(s, e, ws[0]);
    assert SumRounded(s, e, one) == RoundMinutes(Shared(s, e, ws[0]));
    assert ws[..1] == one;
    assert ns <= ne ==> ws == one;
  }

  function Clamp(x: int, a: int, b: int): int { Max(a, Min(b, x)) }

  /** Inside one day, the shared seconds are the seconds whose time of day is in the window. */
  lemma {:induction false} DayCountsExactly(a: int, b: int, d: int, ns: MinuteOfDay, ne: MinuteOfDay)
    requires d * DAY <= a <= b <= (d + 1) * DAY
    ensures SumShared(a, b, Windows(d, ns, ne)) == CountNight(a, b, ns * 60, ne * 60, DAY)
  {
    SumOfWindows(a, b, d, ns, ne);
    var n, m := Clamp(d * DAY + ns * 60, a, b), Clamp(d * DAY + ne * 60, a, b);
    var lo, hi := Min(n, m), Max(n, m);
    forall t | a <= t < b ensures t % DAY == t - d * DAY {
      TimeWithinDay(t, d);
    }
    CountIsAdditive(a, lo, b, ns * 60, ne * 60, DAY);
    CountIsAdditive(lo, hi, b, ns * 60, ne * 60, DAY);
    CountUniform(a, lo, ns * 60, ne * 60, DAY, ns > ne);
    CountUniform(lo, hi, ns * 60, ne * 60, DAY, ns <= ne);
    CountUniform(hi, b, ns * 60, ne * 60, DAY, ns > ne);
  }

  lemma SharedIsClipped(s: int, e: int, d: int, ns: MinuteOfDay, ne: MinuteOfDay)
    requires s <= e && Max(s, d * DAY) <= Min(e, (d + 1) * DAY)
    ensures SumShared(s, e, Windows(d, ns, ne)) == SumShared(Max(s, d * DAY), Min(e, (d + 1) * DAY), Windows(d, ns, ne))
  {
    SumOfWindows(s, e, d, ns, ne);
    SumOfWindows(Max(s, d * DAY), Min(e, (d + 1) * DAY), d, ns, ne);
  }

  lemma {:induction false} ExactIsCount(s: int, e: int, ns: MinuteOfDay, ne: MinuteOfDay, d: int)
    requires s <= e && s / DAY <= d
    ensures ExactFrom(s, e, ns, ne, d) == CountNight(Max(s, d * DAY), e, ns * 60, ne * 60, DAY)
    decreases e / DAY - d
  {
    if d <= e / DAY {
      var a, b := Max(s, d * DAY), Min(e, (d + 1) * DAY);
      SharedIsClipped(s, e, d, ns, ne);
      DayCountsExactly(a, b, d, ns, ne);
      ExactIsCount(s, e, ns, ne, d + 1);
      if d < e / DAY {
        CountIsAdditive(a, b, e, ns * 60, ne * 60, DAY);
      }
    }
  }

  // ----- Whole minutes -----

  lemma MinuteIsUniform(m: int, t: int, ns: MinuteOfDay, ne: MinuteOfDay)
    requires m * 60 <= t < (m + 1) * 60
    ensures InNight(t % DAY, ns * 60, ne * 60) == InNight(m % DAY_MINUTES, ns, ne)
  {
    var q, r := m / DAY_MINUTES, m % DAY_MINUTES;
    assert m == q * DAY_MINUTES + r;
    TimeWithinDay(t, q);
  }

  lemma {:induction false} SecondsPerMinute(a: int, b: int, ns: MinuteOfDay, ne: MinuteOfDay)
    requires a <= b
    ensures CountNight(a * 60, b * 60, ns * 60, ne * 60, DAY) == 60 * CountNight(a, b, ns, ne, DAY_MINUTES)
    decreases b - a
  {
    if a < b {
      SecondsPerMinute(a, b - 1, ns, ne);
      CountIsAdditive(a * 60, (b - 1) * 60, b * 60, ns * 60, ne * 60, DAY);
      forall t | (b - 1) * 60 <= t < b * 60
        ensures InNight(t % DAY, ns * 60, ne * 60) == InNight((b - 1) % DAY_MINUTES, ns, ne)
      {
        MinuteIsUniform(b - 1, t, ns, ne);
      }
      CountUniform((b - 1) * 60, b * 60, ns * 60, ne * 60, DAY, InNight((b - 1) % DAY_MINUTES, ns, ne));
    }
  }

  // ----- Rounding error -----

  /** The error of rounding a piece that begins with the interval, `offset` seconds into a minute. */
  function StartError(offset: int): int { if offset <= 30 then offset else offset - 60 }

  /** The error of rounding a piece that ends with the interval. */
  function EndError(offset: int): int { if offset < 30 then -offset else 60 - offset }

  lemma RoundOf(k: int, r: int)
    requires 0 <= r < 60
    ensures RoundMinutes(60 * k + r) == if r < 30 then k else k + 1
  {
  }

  lemma PieceError(s: int, e: int, w: (int, int))
    requires s <= e && s % 60 == e % 60 && w.0 % 60 == 0 && w.1 % 60 == 0
    ensures var error := 60 * RoundMinutes(Shared(s, e, w)) - Shared(s, e, w);
            error == if Max(s, w.0) >= Min(e, w.1) then 0
                     else (if s > w.0 && e >= w.1 then StartError(s % 60)
                           else if s <= w.0 && e < w.1 then EndError(e % 60) else 0)
  {
    var o, a, b, c, d := s % 60, s / 60, e / 60, w.0 / 60, w.1 / 60;
    assert s == 60 * a + o && e == 60 * b + o && w.0 == 60 * c && w.1 == 60 * d;
    if Max(s, w.0) < Min(e, w.1) {
      if s > w.0 && e >= w.1 {
        if o == 0 {
          RoundOf(d - a, 0);
        } else {
          RoundOf(d - a - 1, 60 - o);
        }
      } else if s <= w.0 && e < w.1 {
        RoundOf(b - c, o);
      } else if s > w.0 {
        RoundOf(b - a, 0);
      } else {
        RoundOf(d - c, 0);
      }
    }
  }

  function DayError(s: int, e: int, ns: MinuteOfDay, ne: MinuteOfDay, d: int): int {
    60 * SumRounded(s, e, Windows(d, ns, ne)) - SumShared(s, e, Windows(d, ns, ne))
  }

  lemma WindowsAreWhole(d: int, ns: MinuteOfDay, ne: MinuteOfDay, i: nat)
    requires i < |Windows(d, ns, ne)|
    ensures var w := Windows(d, ns, ne)[i]; w.0 % 60 == 0 && w.1 % 60 == 0 && d * DAY <= w.0 && w.1 <= (d + 1) * DAY
  {
    assert d * DAY == 60 * (d * 1440);
  }

  /** What a day may contribute: the error of the start, of the end, both or neither. */
  predicate SmallError(error: int, offset: int, first: bool, last: bool) {
    || error == 0
    || (first && error == StartError(offset))
    || (last && error == EndError(offset))
    || (first && last && error == StartError(offset) + EndError(offset))
  }

  /** Only the day of the start and the day of the end contribute an error, each at most one of its kind. */
  lemma DayErrorIsSmall(s: int, e: int, ns: MinuteOfDay, ne: MinuteOfDay, d: int)
    requires s <= e && s % 60 == e % 60 && s / DAY <= d <= e / DAY
    ensures SmallError(DayError(s, e, ns, ne, d), s % 60, d == s / DAY, d == e / DAY)
  {
    SumOfWindows(s, e, d, ns, ne);
    var ws := Windows(d, ns, ne);
    WindowsAreWhole(d, ns, ne, 0);
    PieceError(s, e, ws[0]);
    assert s / DAY < d ==> s < d * DAY;
    assert d < e / DAY ==> (d + 1) * DAY <= e;
    if ns > ne {
      WindowsAreWhole(d, ns, ne, 1);
      PieceError(s, e, ws[1]);
      assert ws[1].1 <= ws[0].0;
    }
  }

  lemma {:induction false} LaterDaysError(s: int, e: int, ns: MinuteOfDay, ne: MinuteOfDay, d: int)
    requires s <= e && s % 60 == e % 60 && s / DAY < d
    ensures var error := 60 * NightFrom(s, e, ns, ne, d) - ExactFrom(s, e, ns, ne, d);
            error == 0 || error == EndError(s % 60)
    decreases e / DAY - d
  {
    if d <= e / DAY {
      DayErrorIsSmall(s, e, ns, ne, d);
      LaterDaysError(s, e, ns, ne, d + 1);
    }
  }

  /** When both ends share a seconds offset, the rounded count is within 60 seconds of the exact night time,
      and off by more than 30 only at offset 30. */
  lemma {:induction false} RoundingErrorIsBounded(s: int, e: int, ns: MinuteOfDay, ne: MinuteOfDay)
    requires s <= e && s % 60 == e % 60
    ensures var error := 60 * NightOverlap(s, e, ns, ne) - CountNight(s, e, ns * 60, ne * 60, DAY);
            -30 < error <= 60 && (error > 30 ==> s % 60 == 30 && error == 60) && (s % 60 == 0 ==> error == 0)
  {
    var d := s / DAY;
    ExactIsCount(s, e, ns, ne, d);
    DayErrorIsSmall(s, e, ns, ne, d);
    LaterDaysError(s, e, ns, ne, d + 1);
  }

  /** For whole-minute ends the interval form is the minute-by-minute count. */
  lemma {:induction false} NightOverlapCountsMinutes(a: int, b: int, ns: MinuteOfDay, ne: MinuteOfDay)
    requires a <= b
    ensures NightOverlap(a * 60, b * 60, ns, ne) == CountNight(a, b, ns, ne, DAY_MINUTES)
  {
    RoundingErrorIsBounded(a * 60, b * 60, ns, ne);
    SecondsPerMinute(a, b, ns, ne);
  }

  /** Splitting a whole-minute interval splits its night time. */
  lemma NightOverlapIsAdditive(a: int, m: int, b: int, ns: MinuteOfDay, ne: MinuteOfDay)
    requires a <= m <= b
    ensures NightOverlap(a * 60, b * 60, ns, ne)
      == NightOverlap(a * 60, m * 60, ns, ne) + NightOverlap(m * 60, b * 60, ns, ne)
  {
    NightOverlapCountsMinutes(a, b, ns, ne);
    NightOverlapCountsMinutes(a, m, ns, ne);
    NightOverlapCountsMinutes(m, b, ns, ne);
    CountIsAdditive(a, m, b, ns, ne, DAY_MINUTES);
  }

  lemma {:induction false} CountAtMostAll(a: int, b: int, start: int, end: int, day: int)
    requires day > 0 && a <= b
    ensures CountNight(a, b, start, end, day) <= b - a
    decreases b - a
  {
    if a < b {
      CountAtMostAll(a, b - 1, start, end, day);
    }
  }

  /** The night minutes of `minutes` minutes exceed them by at most one, and only at offset 30 and when all is night. */
  lemma {:induction false} NightExceedsByAtMostOne(s: int, minutes: nat, ns: MinuteOfDay, ne: MinuteOfDay)
    ensures var night, e := NightOverlap(s, s + 60 * minutes, ns, ne), s + 60 * minutes;
            && 0 <= night <= minutes + 1
            && (night == minutes + 1 ==> s % 60 == 30 && CountNight(s, e, ns * 60, ne * 60, DAY) == 60 * minutes)
  {
    RoundingErrorIsBounded(s, s + 60 * minutes, ns, ne);
    CountAtMostAll(s, s + 60 * minutes, ns * 60, ne * 60, DAY);
  }

  // ----- When the count is one too many -----

  lemma {:induction false} AllCounted(a: int, b: int, start: int, end: int, t: int)
    requires a <= t < b && CountNight(a, b, start, end, DAY) == b - a
    ensures InNight(t % DAY, start, end)
    decreases b - a
  {
    CountAtMostAll(a, b - 1, start, end, DAY);
    if t < b - 1 {
      AllCounted(a, b - 1, start, end, t);
    }
  }

  /** A whole-night interval inside one day lies in one window, and counts exactly. */
  lemma WholeNightOfOneDay(s: int, minutes: nat, ns: MinuteOfDay, ne: MinuteOfDay, d: int)
    requires minutes > 0 && d * DAY <= s && s + 60 * minutes < (d + 1) * DAY
    requires CountNight(s, s + 60 * minutes, ns * 60, ne * 60, DAY) == 60 * minutes
    ensures SumRounded(s, s + 60 * minutes, Windows(d, ns, ne)) == minutes
  {
    var e := s + 60 * minutes;
    SumOfWindows(s, e, d, ns, ne);
    DayCountsExactly(s, e, d, ns, ne);
    RoundOf(minutes, 0);
    RoundOf(0, 0);
  }

  lemma SameOffset(s: int, minutes: int)
    ensures (s + 60 * minutes) % 60 == s % 60
  {
    assert s + 60 * minutes == 60 * (s / 60 + minutes) + s % 60;
  }

  lemma SameDayIsExact(s: int, minutes: nat, ns: MinuteOfDay, ne: MinuteOfDay, d: int)
    requires minutes > 0 && s / DAY == d && (s + 60 * minutes) / DAY == d
    requires CountNight(s, s + 60 * minutes, ns * 60, ne * 60, DAY) == 60 * minutes
    ensures NightOverlap(s, s + 60 * minutes, ns, ne) == minutes
  {
    WholeNightOfOneDay(s, minutes, ns, ne, d);
    assert NightFrom(s, s + 60 * minutes, ns, ne, d + 1) == 0;
  }

  lemma {:induction false} NotNightAt(s: int, e: int, ns: MinuteOfDay, ne: MinuteOfDay, d: int, time: int)
    requires CountNight(s, e, ns * 60, ne * 60, DAY) == e - s && 0 <= time < DAY && !InNight(time, ns * 60, ne * 60)
    ensures !(s <= d * DAY + time < e)
  {
    if s <= d * DAY + time < e {
      AllCounted(s, e, ns * 60, ne * 60, d * DAY + time);
      TimeWithinDay(d * DAY + time, d);
    }
  }

  /** A whole-night interval over a midnight begins in an evening and ends the next morning. */
  lemma {:induction false} WholeNightOverMidnight(s: int, e: int, ns: MinuteOfDay, ne: MinuteOfDay)
    requires CountNight(s, e, ns * 60, ne * 60, DAY) == e - s && s / DAY < e / DAY && e % 60 != 0
    ensures ns > ne && e / DAY == s / DAY + 1
    ensures s / DAY * DAY + ns * 60 <= s < (s / DAY + 1) * DAY <= e <= (s / DAY + 1) * DAY + ne * 60
  {
    var d := s / DAY;
    assert d * DAY <= s < (d + 1) * DAY <= e / DAY * DAY <= e;
    if ns <= ne {
      NotNightAt(s, e, ns, ne, d, DAY - 1);
    }
    NotNightAt(s, e, ns, ne, d, ne * 60);
    NotNightAt(s, e, ns, ne, d + 1, ne * 60);
    NotNightAt(s, e, ns, ne, e / DAY, ne * 60);
    if s < d * DAY + ns * 60 {
      NotNightAt(s, e, ns, ne, d, Max(s - d * DAY, ne * 60));
    }
  }

  /** The evening before a midnight `m`, from `p` and a half minutes before it. */
  lemma EveningCountsUp(m: int, d: int, p: nat, e: int, ns: MinuteOfDay, ne: MinuteOfDay)
    requires m == (d + 1) * DAY && ns > ne && m - 60 * p - 30 >= d * DAY + ns * 60 && m <= e
    ensures SumRounded(m - 60 * p - 30, e, Windows(d, ns, ne)) == p + 1
  {
    SumOfWindows(m - 60 * p - 30, e, d, ns, ne);
    RoundOf(p, 30);
    RoundOf(0, 0);
  }

  lemma MorningCountsUp(m: int, d: int, q: nat, s: int, ns: MinuteOfDay, ne: MinuteOfDay)
    requires m == d * DAY && ns > ne && m + 60 * q + 30 <= m + ne * 60 && s <= m
    ensures SumRounded(s, m + 60 * q + 30, Windows(d, ns, ne)) == q + 1
  {
    SumOfWindows(s, m + 60 * q + 30, d, ns, ne);
    RoundOf(q, 30);
    RoundOf(0, 0);
  }

  lemma {:induction false} TwoDaysCount(s: int, e: int, d: int, ns: MinuteOfDay, ne: MinuteOfDay)
    requires s / DAY == d && e / DAY == d + 1
    ensures NightOverlap(s, e, ns, ne)
      == SumRounded(s, e, Windows(d, ns, ne)) + SumRounded(s, e, Windows(d + 1, ns, ne))
  {
    assert NightFrom(s, e, ns, ne, d + 2) == 0;
    assert NightFrom(s, e, ns, ne, d + 1) == SumRounded(s, e, Windows(d + 1, ns, ne));
  }

  lemma HalfMinuteBefore(s: int, m: int) returns (p: nat)
    requires s % 60 == 30 && m % 60 == 0 && s < m
    ensures s == m - 60 * p - 30
  {
    p := m / 60 - s / 60 - 1;
  }

  lemma HalfMinuteAfter(m: int, e: int) returns (q: nat)
    requires e % 60 == 30 && m % 60 == 0 && m <= e
    ensures e == m + 60 * q + 30
  {
    q := e / 60 - m / 60;
  }

  lemma MidnightIsWhole(d: int)
    ensures d * DAY % 60 == 0
  {
    assert d * DAY == 60 * (d * 1440);
  }

  lemma SplitAtMidnight(s: int, e: int, ns: MinuteOfDay, ne: MinuteOfDay) returns (d: int, p: nat, q: nat)
    requires s % 60 == 30 && e % 60 == 30 && s / DAY < e / DAY && CountNight(s, e, ns * 60, ne * 60, DAY) == e - s
    ensures ns > ne && s / DAY == d && e / DAY == d + 1
    ensures s == (d + 1) * DAY - 60 * p - 30 && s >= d * DAY + ns * 60
    ensures e == (d + 1) * DAY + 60 * q + 30 && e <= (d + 1) * DAY + ne * 60
  {
    WholeNightOverMidnight(s, e, ns, ne);
    d := s / DAY;
    MidnightIsWhole(d + 1);
    p := HalfMinuteBefore(s, (d + 1) * DAY);
    q := HalfMinuteAfter((d + 1) * DAY, e);
  }

  lemma {:induction false} OverMidnightCountsOneMore(s: int, e: int, ns: MinuteOfDay, ne: MinuteOfDay)
    requires s % 60 == 30 && e % 60 == 30 && s / DAY < e / DAY && CountNight(s, e, ns * 60, ne * 60, DAY) == e - s
    ensures 60 * NightOverlap(s, e, ns, ne) == e - s + 60
  {
    var d, p, q := SplitAtMidnight(s, e, ns, ne);
    EveningCountsUp((d + 1) * DAY, d, p, e, ns, ne);
    MorningCountsUp((d + 1) * DAY, d + 1, q, s, ns, ne);
    TwoDaysCount(s, e, d, ns, ne);
  }

  /** A whole night at offset 30 counts one more exactly when it goes over a midnight. */
  lemma WholeNightAtThirty(s: int, minutes: nat, ns: MinuteOfDay, ne: MinuteOfDay)
    requires minutes > 0 && s % 60 == 30 && CountNight(s, s + 60 * minutes, ns * 60, ne * 60, DAY) == 60 * minutes
    ensures NightOverlap(s, s + 60 * minutes, ns, ne) > minutes <==> s / DAY < (s + 60 * minutes) / DAY
  {
    var e := s + 60 * minutes;
    SameOffset(s, minutes);
    if s / DAY < e / DAY {
      OverMidnightCountsOneMore(s, e, ns, ne);
    } else {
      SameDayIsExact(s, minutes, ns, ne, s / DAY);
    }
  }

  /** The night minutes exceed the minutes exactly when all of them are night, over a midnight, at offset 30. */
  lemma NightExceedsIff(s: int, minutes: nat, ns: MinuteOfDay, ne: MinuteOfDay)
    requires minutes > 0
    ensures var e := s + 60 * minutes;
            NightOverlap(s, e, ns, ne) > minutes <==>
              s % 60 == 30 && s / DAY < e / DAY && CountNight(s, e, ns * 60, ne * 60, DAY) == 60 * minutes
  {
    NightExceedsByAtMostOne(s, minutes, ns, ne);
    if s % 60 == 30 && CountNight(s, s + 60 * minutes, ns * 60, ne * 60, DAY) == 60 * minutes {
      WholeNightAtThirty(s, minutes, ns, ne);
    }
  }

  /** One minute around midnight, from 23:59:30, counts as two night minutes: the clamp is needed. */
  lemma OffsetThirtyCountsOneTooMany()
    ensures NightOverlap(DAY - 30, DAY + 30, 21 * 60, 6 * 60) == 2
  {
    var s, e, ns, ne: MinuteOfDay := DAY - 30, DAY + 30, 21 * 60, 6 * 60;
    SumOfWindows(s, e, 0, ns, ne);
    SumOfWindows(s, e, 1, ns, ne);
    assert NightFrom(s, e, ns, ne, 2) == 0;
    assert NightFrom(s, e, ns, ne, 1) == 1;
  }

  // ----- The classification of a day's work -----

  datatype Config = Config(standardDailyHours: real, nightStart: MinuteOfDay, nightEnd: MinuteOfDay, holidays: set<int>)

  /** What the configuration endpoint accepts. */
  predicate ValidConfig(c: Config) { 1.0 <= c.standardDailyHours <= 24.0 }

  datatype Worked = Worked(
    totalMinutes: int,
    regularMinutes: int,
    extraDayMinutes: int,
    extraNightMinutes: int,
    extraSundayMinutes: int,
    extraHolidayMinutes: int)

  function StandardMinutes(c: Config): int { (c.standardDailyHours * 60.0 + 0.5).Floor }

  /** ISO weekday of a day number; day 0 is Thursday, 1 January 1970. */
  function Weekday(d: int): int { (d + 3) % 7 + 1 }

  /** The local time of day of an instant in milliseconds, in seconds. */
  function TimeOfDay(millis: int): int { (millis / 1000 - UTC_OFFSET) % DAY }

  /** A `date` column holds midnight UTC. */
  function ServiceDay(millis: int): int { millis / MILLIS_PER_DAY }

  function AnchoredEntry(entry: int, day: int): int { day * DAY + TimeOfDay(entry) }

  /** An exit that is not after the entry belongs to the next day. */
  function AnchoredExit(entry: int, exit: int, day: int): int {
    var same := day * DAY + TimeOfDay(exit);
    if same <= AnchoredEntry(entry, day) then same + DAY else same
  }

  function Lunch(lunch: Option<nat>): nat { if lunch.Some? then lunch.value else 0 }

  function TotalMinutes(entry: int, exit: int, day: int, lunch: Option<nat>): int {
    Max(0, RoundMinutes(AnchoredExit(entry, exit, day) - AnchoredEntry(entry, day)) - Lunch(lunch))
  }

  /** The extra minutes inside the night window, clamped to the extra minutes. */
  function NightExtras(start: int, standard: int, extra: nat, c: Config): int {
    var from := start + standard * 60;
    Min(NightOverlap(from, from + extra * 60, c.nightStart, c.nightEnd), extra)
  }

  /** The minutes of `total` by kind, for work starting at local second `start` of day `day`. */
  function Classify(start: int, day: int, total: int, c: Config): Worked {
    var standard := StandardMinutes(c);
    var regular := Min(total, standard);
    var extra := Max(0, total - regular);
    if extra == 0 then Worked(total, regular, 0, 0, 0, 0)
    else if Weekday(day) == 7 then Worked(total, regular, 0, 0, extra, 0)
    else if day in c.holidays then Worked(total, regular, 0, 0, 0, extra)
    else
      var night := NightExtras(start, standard, extra, c);
      Worked(total, regular, extra - night, night, 0, 0)
  }

  function OvertimeOf(entry: int, exit: int, serviceDate: int, lunch: Option<nat>, c: Config): Worked {
    var day := ServiceDay(serviceDate);
    Classify(AnchoredEntry(entry, day), day, TotalMinutes(entry, exit, day, lunch), c)
  }

  method ClassifyByShift(entry: int, extraMinutes: nat, standardMinutes: int, c: Config)
    returns (extraDayMinutes: int, extraNightMinutes: int)
    ensures extraNightMinutes == NightExtras(entry, standardMinutes, extraMinutes, c)
    ensures extraDayMinutes == extraMinutes - extraNightMinutes
  {
    var extraStart := entry + standardMinutes * 60;
    var extraEnd := extraStart + extraMinutes * 60;
    var nightCount := ComputeNightOverlap(extraStart, extraEnd, c.nightStart, c.nightEnd);
    extraNightMinutes := Min(nightCount, extraMinutes);
    extraDayMinutes := extraMinutes - extraNightMinutes;
  }

  method CalculateOvertime(entryTime: int, exitTime: int, serviceDate: int, lunch: Option<nat>, c: Config)
    returns (r: Worked)
    requires ValidConfig(c)
    ensures r == OvertimeOf(entryTime, exitTime, serviceDate, lunch, c)
  {
    var day := ServiceDay(serviceDate);
    var entry := day * DAY + TimeOfDay(entryTime);
    var exit := day * DAY + TimeOfDay(exitTime);
    if exit <= entry {
      exit := exit + DAY;
    }
    var totalMinutes := Max(0, RoundMinutes(exit - entry) - Lunch(lunch));
    var standardMinutes := StandardMinutes(c);
    var regularMinutes := Min(totalMinutes, standardMinutes);
    var extraMinutes := Max(0, totalMinutes - regularMinutes);
    if extraMinutes == 0 {
      return Worked(totalMinutes, regularMinutes, 0, 0, 0, 0);
    }
    if Weekday(day) == 7 {
      return Worked(totalMinutes, regularMinutes, 0, 0, extraMinutes, 0);
    }
    if day in c.holidays {
      return Worked(totalMinutes, regularMinutes, 0, 0, 0, extraMinutes);
    }
    var extraDayMinutes, extraNightMinutes := ClassifyByShift(entry, extraMinutes, standardMinutes, c);
    r := Worked(totalMinutes, regularMinutes, extraDayMinutes, extraNightMinutes, 0, 0);
  }

  /** Day 3 was Sunday, 4 January 1970, and every seventh day from it is one. */
  predicate IsSunday(day: int) { (day - 3) % 7 == 0 }

  lemma SundayIsTheSeventhDay(day: int)
    ensures Weekday(day) == 7 <==> IsSunday(day)
  {
  }

  /** Which kind of extra minutes a day gives: on a Sunday Sunday minutes, on a listed day that is no Sunday holiday
      minutes, on any other day day and night minutes. The regular minutes are the lesser of the total and the standard
      hours in minutes, rounded, and the total is the time from entry to exit, of one second to a day, rounded and less
      lunch. */
  lemma ExtrasByDay(entry: int, exit: int, serviceDate: int, lunch: Option<nat>, c: Config, standard: int)
    requires ValidConfig(c) && standard as real - 0.5 <= c.standardDailyHours * 60.0 < standard as real + 0.5
    ensures var r, day := OvertimeOf(entry, exit, serviceDate, lunch, c), serviceDate / 86_400_000;
            var extra := r.totalMinutes - r.regularMinutes;
            var worked := ((exit / 1000 - entry / 1000 - 1) % 86_400 + 1 + 30) / 60
                          - if lunch.Some? then lunch.value else 0;
            && r.totalMinutes == (if worked > 0 then worked else 0)
            && r.regularMinutes == (if r.totalMinutes < standard then r.totalMinutes else standard)
            && r.extraSundayMinutes == (if IsSunday(day) then extra else 0)
            && r.extraHolidayMinutes == (if !IsSunday(day) && day in c.holidays then extra else 0)
            && r.extraDayMinutes + r.extraNightMinutes == (if IsSunday(day) || day in c.holidays then 0 else extra)
  {
    var day := ServiceDay(serviceDate);
    SundayIsTheSeventhDay(day);
    ReanchoredDuration(entry, exit, day, 0, 0);
  }

  lemma NightExtrasWithinAMinute(from: int, extra: nat, c: Config)
    ensures var night := Min(NightOverlap(from, from + extra * 60, c.nightStart, c.nightEnd), extra);
            -60 <= 60 * night - CountNight(from, from + extra * 60, c.nightStart * 60, c.nightEnd * 60, DAY) <= 60
  {
    var to := from + extra * 60;
    assert to % 60 == from % 60;
    RoundingErrorIsBounded(from, to, c.nightStart, c.nightEnd);
    CountAtMostAll(from, to, c.nightStart * 60, c.nightEnd * 60, DAY);
  }

  /** The night extras of an ordinary day differ by at most a minute from the exact time, in seconds, that the extra
      minutes spend inside the night window; they begin when the standard minutes are over. */
  lemma NightExtrasAreExactToAMinute(entry: int, exit: int, serviceDate: int, lunch: Option<nat>, c: Config)
    requires ValidConfig(c)
    requires !IsSunday(serviceDate / 86_400_000) && serviceDate / 86_400_000 !in c.holidays
    ensures var r, day := OvertimeOf(entry, exit, serviceDate, lunch, c), serviceDate / 86_400_000;
            var from := day * 86_400 + (entry / 1000 - 18_000) % 86_400 + StandardMinutes(c) * 60;
            var to := from + (r.totalMinutes - r.regularMinutes) * 60;
            -60 <= 60 * r.extraNightMinutes - CountNight(from, to, c.nightStart * 60, c.nightEnd * 60, DAY) <= 60
  {
    var day := ServiceDay(serviceDate);
    var from := AnchoredEntry(entry, day) + StandardMinutes(c) * 60;
    var extra := Max(0, TotalMinutes(entry, exit, day, lunch) - StandardMinutes(c));
    SundayIsTheSeventhDay(day);
    NightExtrasWithinAMinute(from, extra, c);
  }

  /** The five parts add up to the total, which fits in a day, and the extras are of one kind. */
  lemma MinutesAreConserved(entry: int, exit: int, serviceDate: int, lunch: Option<nat>, c: Config)
    requires ValidConfig(c)
    ensures var r := OvertimeOf(entry, exit, serviceDate, lunch, c);
            && 0 <= r.totalMinutes <= 1440
            && r.regularMinutes + r.extraDayMinutes + r.extraNightMinutes + r.extraSundayMinutes + r.extraHolidayMinutes
                 == r.totalMinutes
            && r.regularMinutes >= 0 && r.extraDayMinutes >= 0 && r.extraNightMinutes >= 0
            && r.extraSundayMinutes >= 0 && r.extraHolidayMinutes >= 0
            && (r.extraSundayMinutes > 0 ==> r.extraHolidayMinutes == r.extraDayMinutes == r.extraNightMinutes == 0)
            && (r.extraHolidayMinutes > 0 ==> r.extraDayMinutes == r.extraNightMinutes == 0)
  {
    var day := ServiceDay(serviceDate);
    var total := TotalMinutes(entry, exit, day, lunch);
    var extra := total - StandardMinutes(c);
    if extra > 0 {
      NightExceedsByAtMostOne(AnchoredEntry(entry, day) + StandardMinutes(c) * 60, extra, c.nightStart, c.nightEnd);
    }
  }

  lemma {:induction false} NightExtrasOnMinute(minute: int, standard: int, extra: nat, c: Config)
    ensures NightExtras(minute * 60, standard, extra, c)
         == CountNight(minute + standard, minute + standard + extra, c.nightStart, c.nightEnd, DAY_MINUTES)
  {
    NightOverlapCountsMinutes(minute + standard, minute + standard + extra, c.nightStart, c.nightEnd);
    CountAtMostAll(minute + standard, minute + standard + extra, c.nightStart, c.nightEnd, DAY_MINUTES);
  }

  lemma AnchoredOnMinute(entry: int, day: int)
    requires TimeOfDay(entry) % 60 == 0
    ensures AnchoredEntry(entry, day) == AnchoredEntry(entry, day) / 60 * 60
  {
  }

  /** When the entry is on a whole minute, the night extras of an ordinary day are exactly the extra minutes inside the
      night window. */
  lemma NightExtrasAreCounted(entry: int, exit: int, serviceDate: int, lunch: Option<nat>, c: Config)
    requires ValidConfig(c) && TimeOfDay(entry) % 60 == 0
    requires Weekday(ServiceDay(serviceDate)) != 7 && ServiceDay(serviceDate) !in c.holidays
    ensures var r := OvertimeOf(entry, exit, serviceDate, lunch, c);
            var from := AnchoredEntry(entry, ServiceDay(serviceDate)) / 60 + StandardMinutes(c);
            r.extraNightMinutes
              == CountNight(from, from + (r.totalMinutes - r.regularMinutes), c.nightStart, c.nightEnd, DAY_MINUTES)
  {
    var day := ServiceDay(serviceDate);
    var minute := AnchoredEntry(entry, day) / 60;
    AnchoredOnMinute(entry, day);
    NightExtrasOnMinute(minute, StandardMinutes(c), Max(0, TotalMinutes(entry, exit, day, lunch) - StandardMinutes(c)),
      c);
  }

  // ----- Re-anchoring -----

  lemma ShiftByDays(millis: int, days: int)
    ensures TimeOfDay(millis + days * MILLIS_PER_DAY) == TimeOfDay(millis)
  {
    var t := millis / 1000 - UTC_OFFSET;
    assert (millis + days * MILLIS_PER_DAY) / 1000 == millis / 1000 + days * DAY;
    var q := t / DAY;
    TimeWithinDay(t, q);
    assert (q + days) * DAY == q * DAY + days * DAY;
    TimeWithinDay(t + days * DAY, q + days);
  }

  /** The seconds between two instants in milliseconds, each truncated to its second. */
  function Elapsed(entry: int, exit: int): int { exit / 1000 - entry / 1000 }

  lemma AnchoredWithinDay(a: int, b: int)
    ensures var rebuilt := b % DAY - a % DAY + if b % DAY <= a % DAY then DAY else 0;
            1 <= rebuilt <= DAY && (b - a - rebuilt) % DAY == 0
  {
    var k := b / DAY - a / DAY - if b % DAY <= a % DAY then 1 else 0;
    WholeDays(k);
    assert b - a - (b % DAY - a % DAY + if b % DAY <= a % DAY then DAY else 0) == k * DAY;
  }

  lemma WholeDays(k: int)
    ensures k * DAY % DAY == 0
  {
  }

  /** The one number in 1..DAY that differs from `x` by whole days. */
  lemma OneRepresentative(x: int, rebuilt: int)
    requires 1 <= rebuilt <= DAY && (x - rebuilt) % DAY == 0
    ensures rebuilt == (x - 1) % DAY + 1
  {
    var k := (x - rebuilt) / DAY;
    assert x - 1 == k * DAY + (rebuilt - 1);
    TimeWithinDay(x - 1, k);
  }

  /** What the rebuilt duration is, for all instants, whatever dates the two columns and the service date carry: the
      elapsed seconds up to whole days, between one second and one day. */
  lemma ReanchoredDuration(entry: int, exit: int, day: int, entryShift: int, exitShift: int)
    ensures var e, x := entry + entryShift * MILLIS_PER_DAY, exit + exitShift * MILLIS_PER_DAY;
            AnchoredExit(e, x, day) - AnchoredEntry(e, day) == (Elapsed(entry, exit) - 1) % DAY + 1
  {
    ShiftByDays(entry, entryShift);
    ShiftByDays(exit, exitShift);
    var a, b := entry / 1000 - UTC_OFFSET, exit / 1000 - UTC_OFFSET;
    AnchoredWithinDay(a, b);
    OneRepresentative(b - a, b % DAY - a % DAY + if b % DAY <= a % DAY then DAY else 0);
  }

  lemma OwnRepresentative(x: int)
    ensures (x - 1) % DAY + 1 == x <==> 1 <= x <= DAY
  {
  }

  /** The rebuilt duration is the real one exactly when the exit is one second to one day after the entry. */
  lemma ReanchoringIsFaithfulIff(entry: int, exit: int, day: int, entryShift: int, exitShift: int)
    ensures var e, x := entry + entryShift * MILLIS_PER_DAY, exit + exitShift * MILLIS_PER_DAY;
            AnchoredExit(e, x, day) - AnchoredEntry(e, day) == Elapsed(entry, exit) <==>
              1 <= Elapsed(entry, exit) <= DAY
  {
    ReanchoredDuration(entry, exit, day, entryShift, exitShift);
    OwnRepresentative(Elapsed(entry, exit));
  }

  /** An exit in the second of its entry counts a whole day. */
  lemma SameSecondCountsADay(entry: int, exit: int, serviceDate: int, c: Config)
    requires Elapsed(entry, exit) == 0
    ensures OvertimeOf(entry, exit, serviceDate, None, c).totalMinutes == 1440
  {
    ReanchoredDuration(entry, exit, ServiceDay(serviceDate), 0, 0);
  }

  const AUTO_CLOSE_MINUTES := 7 * 60 + 20

  /** Closing automatically after 7 h 20 min always counts 440 minutes before lunch. */
  lemma AutoCloseCounts440(entry: int, serviceDate: int, lunch: Option<nat>, c: Config)
    ensures OvertimeOf(entry, entry + AUTO_CLOSE_MINUTES * 60000, serviceDate, lunch, c).totalMinutes
      == Max(0, 440 - Lunch(lunch))
  {
    var exit := entry + AUTO_CLOSE_MINUTES * 60000;
    assert exit / 1000 == entry / 1000 + 26400;
    ReanchoringIsFaithfulIff(entry, exit, ServiceDay(serviceDate), 0, 0);
  }
}
