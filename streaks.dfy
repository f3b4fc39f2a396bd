/**
 * Streak computation (src/hooks/useStreaks.ts): from the daily-outcome map, the
 * current streak (today and the successful days right before it) and the longest
 * streak (the longest run of consecutive successful days).
 *
 * Days are day numbers: a record's date key is identified with the day it names,
 * which `Time.DateKeyIdentifiesDay` justifies for keys `getDateKey` wrote.
 */
module Streaks {
  import opened Wrappers
  import opened DailyOutcomes

  /** The filter of `calculateStreaks`: a success outside nap mode (an absent mode is not 'nap'). */
  predicate CountsForStreak(r: Outcome) {
    r.mode != Some(Nap) && r.outcome == Some(Success)
  }

  /** Day `d` has a record in `outcomes`, and it counts. */
  predicate CountsOn(outcomes: map<int, Outcome>, d: int) {
    d in outcomes && CountsForStreak(outcomes[d])
  }

  predicate StrictlyIncreasing(s: seq<int>) {
    forall i, j :: 0 <= i < j < |s| ==> s[i] < s[j]
  }

  predicate Distinct(s: seq<int>) {
    forall i, j :: 0 <= i < j < |s| ==> s[i] != s[j]
  }

  /** `Object.keys(outcomes).filter(...)`: the listed days whose record counts, in key order. */
  function CountingDays(keys: seq<int>, outcomes: map<int, Outcome>): (days: seq<int>)
    ensures forall d :: d in days <==> d in keys && CountsOn(outcomes, d)
    ensures Distinct(keys) ==> Distinct(days)
  {
    if keys == [] then []
    else
      var rest := CountingDays(keys[1..], outcomes);
      if CountsOn(outcomes, keys[0]) then
        assert Distinct(keys) ==> keys[0] !in keys[1..];
        [keys[0]] + rest
      else rest
  }

  /** Inserting a new day into an increasing list. */
  function Insert(x: int, s: seq<int>): (r: seq<int>)
    requires StrictlyIncreasing(s) && x !in s
    ensures StrictlyIncreasing(r) && |r| == |s| + 1
    ensures forall y :: y in r <==> y == x || y in s
  {
    if s == [] || x < s[0] then [x] + s
    else
      var rest := Insert(x, s[1..]);
      assert forall y :: y in s[1..] ==> s[0] < y;
      forall j | 0 <= j < |rest|
        ensures s[0] < rest[j]
      {
        assert rest[j] in rest;
      }
      [s[0]] + rest
  }

  /** `.sort()`: the days in increasing order. */
  function SortDays(s: seq<int>): (r: seq<int>)
    requires Distinct(s)
    ensures StrictlyIncreasing(r) && |r| == |s|
    ensures forall y :: y in r <==> y in s
  {
    if s == [] then []
    else
      assert s[0] !in s[1..];
      Insert(s[0], SortDays(s[1..]))
  }

  /** `sortedDates`: the days whose record counts, in increasing order. */
  function SuccessDays(keys: seq<int>, outcomes: map<int, Outcome>): (days: seq<int>)
    requires Distinct(keys)
    ensures StrictlyIncreasing(days)
    ensures forall d :: d in days <==> d in keys && CountsOn(outcomes, d)
  {
    SortDays(CountingDays(keys, outcomes))
  }

  /** `sorted[a..b]` (inclusive) is a run of consecutive days. */
  predicate IsRun(sorted: seq<int>, a: int, b: int) {
    0 <= a <= b < |sorted| && forall k :: a <= k < b ==> sorted[k + 1] == sorted[k] + 1
  }

  /** A run of n entries spans n - 1 days. */
  lemma {:induction false} RunSpan(sorted: seq<int>, a: int, b: int)
    requires IsRun(sorted, a, b)
    ensures sorted[b] - sorted[a] == b - a
    decreases b - a
  {
    if a < b {
      assert IsRun(sorted, a, b - 1);
      RunSpan(sorted, a, b - 1);
    }
  }

  /**
   * In the sorted days, the run of `n` days ending today: `start` is its first day,
   * the days between are all present, and the day before it is not.
   */
  ghost predicate IsCurrentRun(sorted: seq<int>, today: int, n: int, start: Option<int>, end: Option<int>) {
    n >= 1 && end == Some(today) && start == Some(today - n + 1) &&
    (forall d :: today - n < d < today ==> d in sorted) && today - n !in sorted
  }

  /**
   * The current-streak loop: walking back from the latest day, skipping days from
   * today on, it extends the streak while the next day is exactly one further back.
   */
  method CurrentStreak(sorted: seq<int>, today: int, todayIsSuccess: bool)
    returns (streak: nat, start: Option<int>, end: Option<int>)
    requires StrictlyIncreasing(sorted)
    ensures !todayIsSuccess ==> streak == 0 && start == None && end == None
    ensures todayIsSuccess ==> IsCurrentRun(sorted, today, streak, start, end)
  {
    streak := 0;
    start := None;
    end := None;
    if !todayIsSuccess {
      return;
    }
    streak := 1;
    end := Some(today);
    start := Some(today);
    var i := |sorted| - 1;
    while i >= 0
      invariant -1 <= i < |sorted|
      invariant streak >= 1 && start == Some(today - streak + 1)
      invariant forall d :: today - streak < d < today ==> d in sorted
      invariant forall k :: i < k < |sorted| && sorted[k] < today ==> sorted[k] > today - streak
      invariant forall k :: 0 <= k <= i && sorted[k] < today ==> sorted[k] <= today - streak
      decreases i
    {
      var date := sorted[i];
      if date >= today {
        i := i - 1;
        continue;
      }
      if today - date == streak {
        streak := streak + 1;
        start := Some(date);
        i := i - 1;
      } else {
        assert date < today - streak;
        assert forall k :: 0 <= k <= i ==> sorted[k] < today - streak;
        return;
      }
    }
    assert forall k :: 0 <= k < |sorted| && sorted[k] < today ==> sorted[k] > today - streak;
  }

  /** No run ending before `limit` is longer than `longest`. */
  ghost predicate NoLongerRunBefore(sorted: seq<int>, limit: int, longest: int) {
    forall a, b :: IsRun(sorted, a, b) && b < limit ==> b - a + 1 <= longest
  }

  /** No run of length `longest` ending before `limit` starts before `lo`. */
  ghost predicate NoEarlierRunBefore(sorted: seq<int>, limit: int, longest: int, lo: int) {
    forall a, b :: IsRun(sorted, a, b) && b < limit && b - a + 1 == longest ==> lo <= a
  }

  /**
   * `longest` is the length of the longest run of consecutive days, and `start`
   * and `end` are the first and last day of the earliest run of that length.
   */
  ghost predicate IsEarliestLongestRun(sorted: seq<int>, longest: int, start: Option<int>, end: Option<int>) {
    (forall a, b :: IsRun(sorted, a, b) ==> b - a + 1 <= longest) &&
    exists a, b ::
      IsRun(sorted, a, b) && longest == b - a + 1 &&
      start == Some(sorted[a]) && end == Some(sorted[b]) &&
      (forall a', b' :: IsRun(sorted, a', b') && b' - a' + 1 == longest ==> a <= a')
  }

  /**
   * The longest-streak loop: runs of consecutive days among the sorted successes,
   * the earliest of the longest ones reported, since only a strictly longer run
   * replaces the one found.
   */
  method LongestStreak(sorted: seq<int>) returns (longest: nat, start: Option<int>, end: Option<int>)
    requires StrictlyIncreasing(sorted) && |sorted| > 0
    ensures IsEarliestLongestRun(sorted, longest, start, end)
  {
    longest := 0;
    start := None;
    end := None;
    var tempStreak := 1;
    var tempStart := sorted[0];
    ghost var ts := 0;
    ghost var lo, hi := 0, 0;
    var i := 1;
    while i < |sorted|
      invariant 1 <= i <= |sorted|
      invariant 0 <= ts < i && tempStreak == i - ts && tempStart == sorted[ts]
      invariant IsRun(sorted, ts, i - 1)
      invariant ts > 0 ==> sorted[ts] != sorted[ts - 1] + 1
      invariant longest == 0 <==> ts == 0
      invariant longest > 0 ==>
        IsRun(sorted, lo, hi) && hi < ts && longest == hi - lo + 1 &&
        start == Some(sorted[lo]) && end == Some(sorted[hi])
      invariant lo <= ts
      invariant NoLongerRunBefore(sorted, ts, longest) && NoEarlierRunBefore(sorted, ts, longest, lo)
      decreases |sorted| - i
    {
      var previous := sorted[i - 1];
      var current := sorted[i];
      if current - previous == 1 {
        RunGrows(sorted, ts, i);
        tempStreak := tempStreak + 1;
      } else {
        CloseRun(sorted, ts, i, longest, lo);
        if tempStreak > longest {
          longest := tempStreak;
          start := Some(tempStart);
          end := Some(previous);
          lo, hi := ts, i - 1;
        }
        tempStreak := 1;
        tempStart := current;
        ts := i;
      }
      i := i + 1;
    }
    CloseRun(sorted, ts, |sorted|, longest, lo);
    if tempStreak > longest {
      longest := tempStreak;
      start := Some(tempStart);
      end := Some(sorted[|sorted| - 1]);
      lo, hi := ts, |sorted| - 1;
    }
    LongestFound(sorted, longest, lo, hi, start, end);
  }

  /**
   * Closing the run `sorted[ts..i-1]`, which cannot be extended to the left: a run
   * ending inside it starts inside it, so the best run before `i` is the one found
   * before `ts`, or this one when it is strictly longer.
   */
  lemma CloseRun(sorted: seq<int>, ts: int, i: int, longest: int, lo: int)
    requires 0 <= ts < i <= |sorted| && IsRun(sorted, ts, i - 1)
    requires ts > 0 ==> sorted[ts] != sorted[ts - 1] + 1
    requires longest == 0 <==> ts == 0
    requires lo <= ts
    requires NoLongerRunBefore(sorted, ts, longest) && NoEarlierRunBefore(sorted, ts, longest, lo)
    ensures i - ts > longest ==> NoLongerRunBefore(sorted, i, i - ts) && NoEarlierRunBefore(sorted, i, i - ts, ts)
    ensures i - ts <= longest ==> NoLongerRunBefore(sorted, i, longest) && NoEarlierRunBefore(sorted, i, longest, lo)
  {
    RunsStopAtBreak(sorted, ts, i);
    var best := if i - ts > longest then i - ts else longest;
    forall a, b | IsRun(sorted, a, b) && b < i
      ensures b - a + 1 <= best
      ensures b - a + 1 == best ==> (if i - ts > longest then ts else lo) <= a
    {
      if b >= ts {
        assert ts <= a;
      }
    }
  }

  /** The run `sorted[ts..i-1]` extends to `i` when the next entry is the next day. */
  lemma RunGrows(sorted: seq<int>, ts: int, i: int)
    requires IsRun(sorted, ts, i - 1) && i < |sorted| && sorted[i] == sorted[i - 1] + 1
    ensures IsRun(sorted, ts, i)
  {
  }

  /** The loop's outcome, once every run has been closed. */
  lemma LongestFound(sorted: seq<int>, longest: int, lo: int, hi: int, start: Option<int>, end: Option<int>)
    requires IsRun(sorted, lo, hi) && longest == hi - lo + 1
    requires start == Some(sorted[lo]) && end == Some(sorted[hi])
    requires NoLongerRunBefore(sorted, |sorted|, longest) && NoEarlierRunBefore(sorted, |sorted|, longest, lo)
    ensures IsEarliestLongestRun(sorted, longest, start, end)
  {
  }

  /**
   * With `sorted[ts..i-1]` a run that cannot be extended to the left, every run
   * ending inside it starts inside it.
   */
  lemma RunsStopAtBreak(sorted: seq<int>, ts: int, i: int)
    requires 0 <= ts < i <= |sorted| && IsRun(sorted, ts, i - 1)
    requires ts > 0 ==> sorted[ts] != sorted[ts - 1] + 1
    ensures forall a, b :: IsRun(sorted, a, b) && ts <= b < i ==> ts <= a
  {
  }

  /** In a strictly increasing list, a day followed by the next day sits right before it. */
  lemma NextDayIsNextEntry(sorted: seq<int>, k: int, x: int)
    requires StrictlyIncreasing(sorted) && 0 <= k < |sorted| && sorted[k] == x && x + 1 in sorted
    ensures k + 1 < |sorted| && sorted[k + 1] == x + 1
  {
    var m :| 0 <= m < |sorted| && sorted[m] == x + 1;
    assert k < m;
  }

  /** n consecutive days present in the list form a run of n entries. */
  lemma {:induction false} ConsecutiveDaysFormRun(sorted: seq<int>, first: int, n: int)
    requires StrictlyIncreasing(sorted) && n >= 1
    requires forall d :: first <= d < first + n ==> d in sorted
    ensures exists a :: IsRun(sorted, a, a + n - 1) && sorted[a] == first
    decreases n
  {
    assert first in sorted;
    if n == 1 {
      var a :| 0 <= a < |sorted| && sorted[a] == first;
      assert IsRun(sorted, a, a);
    } else {
      ConsecutiveDaysFormRun(sorted, first, n - 1);
      var a :| IsRun(sorted, a, a + n - 2) && sorted[a] == first;
      RunSpan(sorted, a, a + n - 2);
      assert first + (n - 1) in sorted;
      NextDayIsNextEntry(sorted, a + n - 2, first + n - 2);
      assert IsRun(sorted, a, a + n - 1);
    }
  }

  /** The earliest longest run spans its length in days. */
  lemma LongestSpan(sorted: seq<int>, longest: int, start: Option<int>, end: Option<int>)
    requires IsEarliestLongestRun(sorted, longest, start, end)
    ensures longest >= 1 && start.Some? && end.Some? && end.value - start.value == longest - 1
  {
    var a, b :| IsRun(sorted, a, b) && longest == b - a + 1 && start == Some(sorted[a]) && end == Some(sorted[b]);
    RunSpan(sorted, a, b);
  }

  /** The current streak's days form a run, so it is no longer than the longest one. */
  lemma CurrentWithinLongest(sorted: seq<int>, today: int, current: int, longest: int, start: Option<int>, end: Option<int>)
    requires StrictlyIncreasing(sorted) && current >= 1 && today in sorted
    requires forall d :: today - current < d < today ==> d in sorted
    requires IsEarliestLongestRun(sorted, longest, start, end)
    ensures current <= longest
  {
    ConsecutiveDaysFormRun(sorted, today - current + 1, current);
    var a :| IsRun(sorted, a, a + current - 1) && sorted[a] == today - current + 1;
    assert IsRun(sorted, a, a + current - 1);
  }

  /**
   * The current streak is `n` days long, runs from `start` to `end == today`, every
   * one of its days counts, and the day before it does not.
   */
  ghost predicate IsCurrentStreak(outcomes: map<int, Outcome>, today: int, n: int, start: Option<int>, end: Option<int>) {
    n >= 1 && end == Some(today) && start == Some(today - n + 1) &&
    (forall d :: today - n < d <= today ==> CountsOn(outcomes, d)) &&
    !CountsOn(outcomes, today - n)
  }

  /** The days of the current streak, read back in the outcome map. */
  lemma CurrentStreakDays(keys: seq<int>, outcomes: map<int, Outcome>, sorted: seq<int>, today: int,
                          n: int, start: Option<int>, end: Option<int>)
    requires Distinct(keys) && forall d :: d in keys <==> d in outcomes
    requires sorted == SuccessDays(keys, outcomes)
    requires CountsOn(outcomes, today)
    requires IsCurrentRun(sorted, today, n, start, end)
    ensures IsCurrentStreak(outcomes, today, n, start, end)
  {
  }

  /** `StreakData`, dates as day numbers. */
  datatype StreakData = StreakData(
    currentStreak: nat, currentStreakStart: Option<int>, currentStreakEnd: Option<int>,
    longestStreak: nat, longestStreakStart: Option<int>, longestStreakEnd: Option<int>)

  const NoStreaks: StreakData := StreakData(0, None, None, 0, None, None)

  /**
   * `calculateStreaks(outcomes)` on day `today`; `keys` is `Object.keys(outcomes)`,
   * each key listed once.
   */
  method CalculateStreaks(keys: seq<int>, outcomes: map<int, Outcome>, today: int) returns (data: StreakData)
    requires Distinct(keys) && forall d :: d in keys <==> d in outcomes
    // With no counting record, every count is 0 and every date is null.
    ensures |SuccessDays(keys, outcomes)| == 0 ==> data == NoStreaks
    // The current streak is 0 unless today's record counts; then it runs back from today.
    ensures !CountsOn(outcomes, today) ==>
      data.currentStreak == 0 && data.currentStreakStart == None && data.currentStreakEnd == None
    ensures CountsOn(outcomes, today) ==>
      IsCurrentStreak(outcomes, today, data.currentStreak, data.currentStreakStart, data.currentStreakEnd)
    // The longest streak is the longest run, its dates the earliest such run's ends.
    ensures |SuccessDays(keys, outcomes)| > 0 ==>
      data.longestStreak >= 1 &&
      IsEarliestLongestRun(SuccessDays(keys, outcomes), data.longestStreak, data.longestStreakStart, data.longestStreakEnd)
    // Consequences: the longest streak spans its length in days, and the current one is no longer.
    ensures data.longestStreakStart.Some? && data.longestStreakEnd.Some? ==>
      data.longestStreakEnd.value - data.longestStreakStart.value == data.longestStreak - 1
    ensures data.currentStreak <= data.longestStreak
  {
    var sorted := SuccessDays(keys, outcomes);
    var todayIsSuccess := CountsOn(outcomes, today);
    assert todayIsSuccess ==> today in sorted;
    if |sorted| == 0 {
      return NoStreaks;
    }
    data := StreaksOfDays(sorted, today, todayIsSuccess);
    if todayIsSuccess {
      CurrentStreakDays(keys, outcomes, sorted, today, data.currentStreak, data.currentStreakStart, data.currentStreakEnd);
    }
  }

  /** The two loops of `calculateStreaks` over the sorted successful days. */
  method StreaksOfDays(sorted: seq<int>, today: int, todayIsSuccess: bool) returns (data: StreakData)
    requires StrictlyIncreasing(sorted) && |sorted| > 0 && (todayIsSuccess ==> today in sorted)
    ensures !todayIsSuccess ==>
      data.currentStreak == 0 && data.currentStreakStart == None && data.currentStreakEnd == None
    ensures todayIsSuccess ==>
      IsCurrentRun(sorted, today, data.currentStreak, data.currentStreakStart, data.currentStreakEnd)
    ensures data.longestStreak >= 1 &&
      IsEarliestLongestRun(sorted, data.longestStreak, data.longestStreakStart, data.longestStreakEnd)
    ensures data.longestStreakStart.Some? && data.longestStreakEnd.Some? &&
      data.longestStreakEnd.value - data.longestStreakStart.value == data.longestStreak - 1
    ensures data.currentStreak <= data.longestStreak
  {
    var current, currentStart, currentEnd := CurrentStreak(sorted, today, todayIsSuccess);
    var longest, longestStart, longestEnd := LongestStreak(sorted);
    LongestSpan(sorted, longest, longestStart, longestEnd);
    if todayIsSuccess {
      CurrentWithinLongest(sorted, today, current, longest, longestStart, longestEnd);
    }
    data := StreakData(current, currentStart, currentEnd, longest, longestStart, longestEnd);
  }
}
