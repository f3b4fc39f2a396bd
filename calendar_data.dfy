/**
 * The calendar of the last twelve months (src/hooks/useCalendarData.ts): for each
 * month a grid of weeks, Sunday first, each day cell coloured by the day's
 * outcome record.
 *
 * Months are `getMonth()` numbers (0 = January). The current instant `now` and the
 * outcome map read from storage are parameters.
 */
module CalendarData {
  import opened Wrappers
  import opened Time
  import opened DailyOutcomes

  datatype DayStatus = SuccessDay | FailDay | FutureDay | EmptyDay

  datatype DayData = DayData(date: Instant, status: DayStatus)

  /** A month bucket; a `None` cell is a `null` padding cell. */
  datatype MonthData = MonthData(year: int, month: int, weeks: seq<seq<Option<DayData>>>)

  /**
   * The status of a day: anything after today is future; otherwise a non-nap
   * record's outcome gives success or fail, and every other case is empty.
   */
  function StatusOf(date: Instant, today: Instant, record: Option<Outcome>): (s: DayStatus)
    ensures s == FutureDay <==> date > today
    ensures s == SuccessDay <==>
      date <= today && record.Some? && record.value.mode != Some(Nap) && record.value.outcome == Some(Success)
    ensures s == FailDay <==>
      date <= today && record.Some? && record.value.mode != Some(Nap) && record.value.outcome == Some(Fail)
  {
    if date > today then FutureDay
    else if record.None? then EmptyDay
    else if record.value.mode == Some(Nap) then EmptyDay
    else if record.value.outcome == Some(Success) then SuccessDay
    else if record.value.outcome == Some(Fail) then FailDay
    else EmptyDay
  }

  /** A record in nap mode never colours its day, whatever its outcome. */
  lemma NapDaysAreEmpty(date: Instant, today: Instant, record: Outcome)
    requires date <= today && record.mode == Some(Nap)
    ensures StatusOf(date, today, Some(record)) == EmptyDay
  {
  }

  // ---------------------------------------------------------------- month buckets

  /** `new Date(year, month + delta)`'s year and month: month overflow carries into the year. */
  function ShiftMonth(year: int, month: int, delta: int): (r: (int, int))
    ensures 0 <= r.1 < 12
    ensures r.0 * 12 + r.1 == year * 12 + month + delta
  {
    var total := year * 12 + month + delta;
    (total / 12, total % 12)
  }

  /** Bucket `m` (0..11) of the months ending with `month` of `year`. */
  function BucketMonth(year: int, month: int, m: int): (int, int) {
    ShiftMonth(year, month, m - 11)
  }

  /**
   * The bucket month as the loop computes it: `setMonth(getMonth() - back)` on a
   * date that is day `day` of its month keeps the day, so in a target month
   * shorter than `day` the date rolls over into the month after.
   */
  function SetMonthBack(year: int, month: int, day: int, back: int): (r: (int, int))
    ensures 0 <= r.1 < 12
  {
    var target := ShiftMonth(year, month, -back);
    if day <= DaysInMonth(target.0, target.1 + 1) then target else ShiftMonth(target.0, target.1, 1)
  }

  /** Up to day 28 the rollover never happens, and the buckets are the intended months. */
  lemma SetMonthBackAgrees(year: int, month: int, day: int, back: int)
    requires day <= 28
    ensures SetMonthBack(year, month, day, back) == ShiftMonth(year, month, -back)
  {
  }

  /**
   * On 31 March 2025 the loop's buckets 10 and 11 are both March 2025, where the
   * intended bucket 10 is February.
   */
  lemma SetMonthBackRepeatsMarch()
    ensures SetMonthBack(2025, 2, 31, 1) == (2025, 2) && SetMonthBack(2025, 2, 31, 0) == (2025, 2)
    ensures BucketMonth(2025, 2, 10) == (2025, 1) && BucketMonth(2025, 2, 11) == (2025, 2)
  {
    assert DaysInMonth(2025, 2) == 28;
  }

  // ---------------------------------------------------------------- one month

  /** The cell date of day `day` of a month: `new Date(year, month, day)` at midnight. */
  function CellDate(year: int, month: int, day: int): Instant
    requires 0 <= month < 12
  {
    DaysFromCivil(Civil(year, month + 1, day)) * MsPerDay
  }

  /** A cell date is midnight of the very calendar day it was built from, so `getDateKey` names that day. */
  lemma CellDateFields(year: int, month: int, day: int)
    requires 0 <= month < 12 && 1 <= day <= DaysInMonth(year, month + 1)
    ensures TimeOfDay(CellDate(year, month, day)) == 0
    ensures CivilDate(CellDate(year, month, day)) == Civil(year, month + 1, day)
  {
    var n := DaysFromCivil(Civil(year, month + 1, day));
    MidnightOfDay(n);
    CivilRoundTrip(Civil(year, month + 1, day));
  }

  /** `firstDay.getDay()`: the weekday of the first of the month, 0 for Sunday. */
  function LeadingCells(year: int, month: int): (n: int)
    requires 0 <= month < 12
    ensures 0 <= n < 7
  {
    WeekdayOfDay(DaysFromCivil(Civil(year, month + 1, 1)))
  }

  function DayCell(year: int, month: int, day: int, today: Instant, outcomes: map<string, Outcome>): DayData
    requires 0 <= month < 12
  {
    var date := CellDate(year, month, day);
    DayData(date, StatusOf(date, today, Get(outcomes, DateKey(date))))
  }

  /**
   * Cell `i` of a month's list: `LeadingCells` nulls, then days 1 to the month's
   * length in order, then nulls.
   */
  function CellAt(year: int, month: int, i: int, today: Instant, outcomes: map<string, Outcome>): Option<DayData>
    requires 0 <= month < 12
  {
    var lead := LeadingCells(year, month);
    if lead <= i < lead + DaysInMonth(year, month + 1) then Some(DayCell(year, month, i - lead + 1, today, outcomes))
    else None
  }

  lemma CellAtDay(year: int, month: int, i: int, today: Instant, outcomes: map<string, Outcome>)
    requires 0 <= month < 12
    requires LeadingCells(year, month) <= i < LeadingCells(year, month) + DaysInMonth(year, month + 1)
    ensures CellAt(year, month, i, today, outcomes) ==
      Some(DayCell(year, month, i - LeadingCells(year, month) + 1, today, outcomes))
  {
  }

  lemma CellAtPadding(year: int, month: int, i: int, today: Instant, outcomes: map<string, Outcome>)
    requires 0 <= month < 12
    requires i < LeadingCells(year, month) || LeadingCells(year, month) + DaysInMonth(year, month + 1) <= i
    ensures CellAt(year, month, i, today, outcomes) == None
  {
  }

  /** Appending the next cell keeps the list a prefix of the month's cells. */
  lemma OneMoreCell(cells: seq<Option<DayData>>, c: Option<DayData>, year: int, month: int, today: Instant,
                    outcomes: map<string, Outcome>)
    requires 0 <= month < 12
    requires CellsSoFar(cells, year, month, today, outcomes)
    requires c == CellAt(year, month, |cells|, today, outcomes)
    ensures CellsSoFar(cells + [c], year, month, today, outcomes)
  {
    var cell := MonthCell(year, month, today, outcomes);
    assert c == cell(|cells|);
    SnocAgrees(cells, c, cell);
  }

  /** `s` lists `f(0)`, `f(1)`, ... */
  ghost predicate Agrees<T>(s: seq<T>, f: int -> T) {
    forall k :: 0 <= k < |s| ==> s[k] == f(k)
  }

  /** A list that agrees with `f` on its indices still does after appending `f(|s|)`. */
  lemma SnocAgrees<T>(s: seq<T>, c: T, f: int -> T)
    requires Agrees(s, f) && c == f(|s|)
    ensures Agrees(s + [c], f)
  {
    var next := s + [c];
    forall k | 0 <= k < |next|
      ensures next[k] == f(k)
    {
      if k < |s| {
        assert next[k] == s[k];
      }
    }
  }

  /** The number of cells once padded to whole weeks. */
  function PaddedLength(n: nat): (r: nat)
    ensures r % 7 == 0 && n <= r < n + 7
  {
    (n + 6) / 7 * 7
  }

  /**
   * Day `day` sits at index `LeadingCells + day - 1`, and that index's column
   * (index mod 7) is the day's weekday, Sunday being column 0.
   */
  lemma CellColumnIsWeekday(year: int, month: int, day: int)
    requires 0 <= month < 12 && 1 <= day
    ensures WeekdayOfDay(DayNumber(CellDate(year, month, day))) == (LeadingCells(year, month) + day - 1) % 7
  {
    var first := DaysFromCivil(Civil(year, month + 1, 1));
    var n := DaysFromCivil(Civil(year, month + 1, day));
    assert n == first + (day - 1);
    MidnightOfDay(n);
    WeekdayAfter(first, day - 1);
  }

  /** `allDays` holds the first `|allDays|` cells of the month. */
  ghost predicate CellsSoFar(allDays: seq<Option<DayData>>, year: int, month: int, today: Instant,
                             outcomes: map<string, Outcome>)
    requires 0 <= month < 12
  {
    Agrees(allDays, MonthCell(year, month, today, outcomes))
  }

  /** The cells of a month, by index. */
  ghost function MonthCell(year: int, month: int, today: Instant, outcomes: map<string, Outcome>): int -> Option<DayData>
    requires 0 <= month < 12
  {
    k => CellAt(year, month, k, today, outcomes)
  }

  /** The cell list of one month: leading nulls, one cell per day, trailing nulls to a multiple of 7. */
  method MonthCells(year: int, month: int, today: Instant, outcomes: map<string, Outcome>)
    returns (allDays: seq<Option<DayData>>)
    requires 0 <= month < 12
    ensures |allDays| == PaddedLength(LeadingCells(year, month) + DaysInMonth(year, month + 1))
    ensures forall k :: 0 <= k < |allDays| ==> allDays[k] == CellAt(year, month, k, today, outcomes)
  {
    var lead := LeadingCells(year, month);
    allDays := [];
    var i := 0;
    while i < lead
      invariant 0 <= i <= lead && |allDays| == i
      invariant CellsSoFar(allDays, year, month, today, outcomes)
    {
      CellAtPadding(year, month, i, today, outcomes);
      OneMoreCell(allDays, None, year, month, today, outcomes);
      allDays := allDays + [None];
      i := i + 1;
    }
    allDays := AppendDays(year, month, today, outcomes, allDays);
    allDays := PadToWeeks(year, month, today, outcomes, allDays);
    assert forall k :: 0 <= k < |allDays| ==> MonthCell(year, month, today, outcomes)(k) == CellAt(year, month, k, today, outcomes);
  }

  /** The status chain of the day loop: future first, then the record's outcome unless it is a nap. */
  method ClassifyDay(date: Instant, today: Instant, record: Option<Outcome>) returns (status: DayStatus)
    ensures status == StatusOf(date, today, record)
  {
    status := EmptyDay;
    if date > today {
      status := FutureDay;
    } else if record.Some? {
      if record.value.mode == Some(Nap) {
        status := EmptyDay;
      } else if record.value.outcome == Some(Success) {
        status := SuccessDay;
      } else if record.value.outcome == Some(Fail) {
        status := FailDay;
      } else {
        status := EmptyDay;
      }
    }
  }

  /** The day loop: one cell per day of the month, its status classified as `StatusOf` says. */
  method AppendDays(year: int, month: int, today: Instant, outcomes: map<string, Outcome>,
                    leading: seq<Option<DayData>>)
    returns (allDays: seq<Option<DayData>>)
    requires 0 <= month < 12
    requires |leading| == LeadingCells(year, month) && CellsSoFar(leading, year, month, today, outcomes)
    ensures |allDays| == LeadingCells(year, month) + DaysInMonth(year, month + 1)
    ensures CellsSoFar(allDays, year, month, today, outcomes)
  {
    var totalDays := DaysInMonth(year, month + 1);
    allDays := leading;
    var day := 1;
    while day <= totalDays
      invariant 1 <= day <= totalDays + 1 && |allDays| == |leading| + day - 1
      invariant CellsSoFar(allDays, year, month, today, outcomes)
    {
      var date := CellDate(year, month, day);
      var record := Get(outcomes, DateKey(date));
      var status := ClassifyDay(date, today, record);
      assert DayData(date, status) == DayCell(year, month, day, today, outcomes);
      CellAtDay(year, month, |allDays|, today, outcomes);
      OneMoreCell(allDays, Some(DayData(date, status)), year, month, today, outcomes);
      allDays := allDays + [Some(DayData(date, status))];
      day := day + 1;
    }
  }

  /** `while (allDays.length % 7 !== 0) allDays.push(null)`. */
  method PadToWeeks(year: int, month: int, today: Instant, outcomes: map<string, Outcome>,
                    cells: seq<Option<DayData>>)
    returns (allDays: seq<Option<DayData>>)
    requires 0 <= month < 12
    requires |cells| == LeadingCells(year, month) + DaysInMonth(year, month + 1)
    requires CellsSoFar(cells, year, month, today, outcomes)
    ensures |allDays| == PaddedLength(|cells|)
    ensures CellsSoFar(allDays, year, month, today, outcomes)
  {
    var padded := PaddedLength(|cells|);
    allDays := cells;
    while |allDays| % 7 != 0
      invariant |cells| <= |allDays| <= padded
      invariant CellsSoFar(allDays, year, month, today, outcomes)
      decreases padded - |allDays|
    {
      CellAtPadding(year, month, |allDays|, today, outcomes);
      OneMoreCell(allDays, None, year, month, today, outcomes);
      allDays := allDays + [None];
    }
  }

  /** `allDays.slice(i, i + 7)` for i = 0, 7, 14, ...: the list cut into weeks. */
  method ChunkWeeks(allDays: seq<Option<DayData>>) returns (weeks: seq<seq<Option<DayData>>>)
    requires |allDays| % 7 == 0
    ensures IsWeeksOf(weeks, allDays)
  {
    weeks := [];
    var start := 0;
    while start < |allDays|
      invariant 0 <= start <= |allDays| && start % 7 == 0 && |weeks| * 7 == start
      invariant forall w :: 0 <= w < |weeks| ==> |weeks[w]| == 7
      invariant forall w, j :: 0 <= w < |weeks| && 0 <= j < 7 ==> weeks[w][j] == allDays[7 * w + j]
    {
      weeks := weeks + [allDays[start..start + 7]];
      start := start + 7;
    }
  }

  /** The padded cell list of a month, as `MonthCells` builds it. */
  ghost function PaddedCells(year: int, month: int, today: Instant, outcomes: map<string, Outcome>)
    : (cells: seq<Option<DayData>>)
    requires 0 <= month < 12
    ensures |cells| == PaddedLength(LeadingCells(year, month) + DaysInMonth(year, month + 1))
    ensures forall i :: 0 <= i < |cells| ==> cells[i] == CellAt(year, month, i, today, outcomes)
  {
    seq(PaddedLength(LeadingCells(year, month) + DaysInMonth(year, month + 1)),
        i requires 0 <= i => CellAt(year, month, i, today, outcomes))
  }

  /** `weeks` is `cells` cut into rows of exactly 7: row w holds cells 7w .. 7w + 6. */
  ghost predicate IsWeeksOf<T>(weeks: seq<seq<T>>, cells: seq<T>) {
    |weeks| * 7 == |cells| &&
    (forall w :: 0 <= w < |weeks| ==> |weeks[w]| == 7) &&
    (forall w, j :: 0 <= w < |weeks| && 0 <= j < 7 ==> weeks[w][j] == cells[7 * w + j])
  }

  /**
   * A month bucket laid out as `buildCalendar` lays it out: its padded cells (the
   * leading blanks, the days, blanks up to whole weeks) cut into weeks of 7.
   */
  ghost predicate IsMonthLayout(md: MonthData, today: Instant, outcomes: map<string, Outcome>)
    requires 0 <= md.month < 12
  {
    IsWeeksOf(md.weeks, PaddedCells(md.year, md.month, today, outcomes))
  }

  /** Position 7w + j, with j < 7, of a list cut into weeks is in week w, column j. */
  lemma WeekOfCell<T>(weeks: seq<seq<T>>, cells: seq<T>, w: int, j: int)
    requires IsWeeksOf(weeks, cells)
    requires 0 <= j < 7 && 0 <= 7 * w + j < |cells|
    ensures 0 <= w < |weeks| && weeks[w][j] == cells[7 * w + j]
  {
  }

  /**
   * In a laid-out month every day of the month is shown, in week w and column j
   * where 7w + j is its position after the leading blanks; CellColumnIsWeekday
   * shows that column is the day's weekday.
   */
  lemma EveryDayIsShown(md: MonthData, day: int, w: int, j: int, today: Instant, outcomes: map<string, Outcome>)
    requires 0 <= md.month < 12 && IsMonthLayout(md, today, outcomes)
    requires 1 <= day <= DaysInMonth(md.year, md.month + 1)
    requires 0 <= j < 7 && 7 * w + j == LeadingCells(md.year, md.month) + day - 1
    ensures 0 <= w < |md.weeks| && md.weeks[w][j] == Some(DayCell(md.year, md.month, day, today, outcomes))
  {
    var cells := PaddedCells(md.year, md.month, today, outcomes);
    var lead := LeadingCells(md.year, md.month);
    var i := lead + day - 1;
    CellAtDay(md.year, md.month, i, today, outcomes);
    assert i - lead + 1 == day;
    WeekOfCell(md.weeks, cells, w, j);
  }

  /** One month of the loop body: its cells cut into weeks of 7. */
  method BuildMonth(year: int, month: int, today: Instant, outcomes: map<string, Outcome>)
    returns (md: MonthData)
    requires 0 <= month < 12
    ensures md.year == year && md.month == month
    ensures IsMonthLayout(md, today, outcomes)
  {
    var allDays := MonthCells(year, month, today, outcomes);
    var weeks := ChunkWeeks(allDays);
    md := MonthData(year, month, weeks);
  }

  // ---------------------------------------------------------------- the hook

  /** `useCalendarData`: the `monthsData` state and `buildCalendar`. */
  class Calendar {
    var monthsData: seq<MonthData>

    constructor ()
      ensures monthsData == []
    {
      monthsData := [];
    }

    /**
     * `buildCalendar`: twelve buckets, the current month last and each one the
     * month after the one before, every one laid out as `BuildMonth` promises.
     */
    method BuildCalendar(now: Instant, outcomes: map<string, Outcome>)
      modifies this
      ensures |monthsData| == 12
      ensures forall m :: 0 <= m < 12 ==>
        0 <= monthsData[m].month < 12 &&
        (monthsData[m].year, monthsData[m].month) == BucketMonth(FullYear(now), Month(now) - 1, m)
      ensures forall m :: 0 <= m < 12 ==> IsMonthLayout(monthsData[m], StartOfDay(now), outcomes)
    {
      var today := StartOfDay(now);
      var year := FullYear(now);
      var month := Month(now) - 1;
      var months: seq<MonthData> := [];
      var m := 0;
      while m < 12
        invariant 0 <= m <= 12 && |months| == m
        invariant forall k :: 0 <= k < m ==>
          0 <= months[k].month < 12 && (months[k].year, months[k].month) == BucketMonth(year, month, k)
        invariant forall k :: 0 <= k < m ==> IsMonthLayout(months[k], today, outcomes)
      {
        var bucket := BucketMonth(year, month, m);
        var md := BuildMonth(bucket.0, bucket.1, today, outcomes);
        months := months + [md];
        m := m + 1;
      }
      monthsData := months;
    }
  }

  /** The buckets are consecutive months in chronological order, the last one the current month. */
  lemma BucketsAreConsecutive(year: int, month: int, m: int)
    requires 0 <= month < 12 && 0 <= m < 11
    ensures BucketMonth(year, month, 11) == (year, month)
    ensures var a := BucketMonth(year, month, m); var b := BucketMonth(year, month, m + 1);
      b.0 * 12 + b.1 == a.0 * 12 + a.1 + 1
  {
  }
}
