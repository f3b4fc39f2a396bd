/**
 * The date grid behind components/ContributionGraph.tsx: the list of the last
 * `days` days, its arrangement into week columns of at most seven, how many
 * columns are shown, the colour of a cell and the key a day is looked up by.
 * The window width, cell size and gap enter only through `maxCols`; the markup
 * is not modelled.
 */
module ContributionGraph {
  import opened Strings
  import opened Time
  import opened Colors

  datatype Status = Perfect | Good | Missed

  /** `toISO`: year, then month and day padded to two digits. It is the date key. */
  function ToIso(d: Instant): (iso: string)
    ensures iso == DateKey(d)
  {
    var y, m, day := FullYear(d), Month(d), DayOfMonth(d);
    IntToString(y) + "-" + Pad2(NatToString(m)) + "-" + Pad2(NatToString(day))
  }

  /** The i-th of `days` dates: `today` moved back `days - 1 - i` calendar days, time of day kept. */
  function DateAt(today: Instant, days: int, i: int): Instant {
    today + (i - (days - 1)) * MsPerDay
  }

  /** The `dates` memo: `days - 1` days back from today, then one day at a time. */
  method Dates(today: Instant, days: int) returns (out: seq<Instant>)
    ensures |out| == if days > 0 then days else 0
    ensures forall i :: 0 <= i < |out| ==> out[i] == DateAt(today, days, i)
  {
    var start := today - (days - 1) * MsPerDay;
    out := [];
    var i := 0;
    while i < days
      invariant 0 <= i && (days > 0 ==> i <= days) && (days <= 0 ==> i == 0)
      invariant |out| == i
      invariant forall k :: 0 <= k < i ==> out[k] == DateAt(today, days, k)
    {
      out := out + [start + i * MsPerDay];
      i := i + 1;
    }
  }

  /** The dates are consecutive days at the same time of day, and the last one is today. */
  lemma DatesEndToday(today: Instant, days: int)
    requires days >= 1
    ensures DateAt(today, days, days - 1) == today
    ensures forall i :: 0 <= i < days - 1 ==>
      DayNumber(DateAt(today, days, i + 1)) == DayNumber(DateAt(today, days, i)) + 1
    ensures forall i :: 0 <= i < days ==> TimeOfDay(DateAt(today, days, i)) == TimeOfDay(today)
    ensures forall i :: 0 <= i < days ==> DayNumber(DateAt(today, days, i)) == DayNumber(today) - (days - 1 - i)
  {
    forall i | 0 <= i < days
      ensures DayNumber(DateAt(today, days, i)) == DayNumber(today) - (days - 1 - i)
      ensures TimeOfDay(DateAt(today, days, i)) == TimeOfDay(today)
    {
      var t := DateAt(today, days, i);
      var q, r := today / MsPerDay, today % MsPerDay;
      assert t == MsPerDay * (q - (days - 1 - i)) + r;
    }
  }

  /** Consecutive dates have distinct keys, once the years are not negative. */
  lemma DatesHaveDistinctKeys(today: Instant, days: int, i: int, j: int)
    requires 0 <= i < j < days
    requires FullYear(DateAt(today, days, i)) >= 0 && FullYear(DateAt(today, days, j)) >= 0
    ensures ToIso(DateAt(today, days, i)) != ToIso(DateAt(today, days, j))
  {
    DatesEndToday(today, days);
    DateKeyIdentifiesDay(DateAt(today, days, i), DateAt(today, days, j));
  }

  /** `Math.ceil(days / 7)`. */
  function Cols(days: int): (c: int)
    ensures 7 * (c - 1) < days <= 7 * c
  {
    (days + 6) / 7
  }

  datatype Cell = Cell(iso: string, date: Instant)

  function CellOf(d: Instant): Cell {
    Cell(ToIso(d), d)
  }

  /** How many of `n` dates land in column `c`: the indices 7c .. 7c + 6 that exist. */
  function ColumnSize(n: int, c: int): (k: int)
    ensures 0 <= k <= 7
    ensures k == 0 || 7 * c + k <= n
  {
    if n <= 7 * c then 0 else if n >= 7 * c + 7 then 7 else n - 7 * c
  }

  /** Column c holds the cells of dates 7c .. 7c + 6 that exist, in order. */
  ghost predicate IsGridOf(dates: seq<Instant>, cols: int, grid: seq<seq<Cell>>) {
    |grid| == cols &&
    (forall c :: 0 <= c < cols ==> |grid[c]| == ColumnSize(|dates|, c)) &&
    (forall c, j :: 0 <= c < cols && 0 <= j < |grid[c]| ==>
      7 * c + j < |dates| && grid[c][j] == CellOf(dates[7 * c + j]))
  }

  /**
   * The `grid`: `cols` empty columns, then each date pushed onto column
   * `floor(idx / 7)`. The source indexes `grid[c]` without a check, so the
   * columns must cover the dates.
   */
  method Grid(dates: seq<Instant>, cols: int) returns (grid: seq<seq<Cell>>)
    requires |dates| <= 7 * cols
    ensures IsGridOf(dates, cols, grid)
  {
    var cells := seq(|dates|, i requires 0 <= i < |dates| => CellOf(dates[i]));
    grid := EmptyColumns(cols);
    var idx := 0;
    while idx < |dates|
      invariant 0 <= idx <= |dates|
      invariant FilledUpTo(cells, cols, grid, idx)
    {
      grid := Push(cells, cols, grid, idx);
      idx := idx + 1;
    }
  }

  /** `for (let c = 0; c < cols; c++) grid[c] = []`. */
  method EmptyColumns<T>(cols: int) returns (grid: seq<seq<T>>)
    ensures |grid| == (if cols > 0 then cols else 0)
    ensures forall k :: 0 <= k < |grid| ==> grid[k] == []
  {
    grid := [];
    var c := 0;
    while c < cols
      invariant 0 <= c && |grid| == c && (cols > 0 ==> c <= cols) && (cols <= 0 ==> c == 0)
      invariant forall k :: 0 <= k < c ==> grid[k] == []
    {
      grid := grid + [[]];
      c := c + 1;
    }
  }

  /** The columns hold exactly the first `n` items, in order. */
  ghost predicate FilledUpTo<T>(items: seq<T>, cols: int, grid: seq<seq<T>>, n: int)
    requires 0 <= n <= |items|
  {
    |grid| == cols &&
    (forall k :: 0 <= k < cols ==> |grid[k]| == ColumnSize(n, k)) &&
    (forall k, j :: 0 <= k < cols && 0 <= j < |grid[k]| ==> 7 * k + j < n && grid[k][j] == items[7 * k + j])
  }

  /** One `grid[Math.floor(idx / 7)].push(...)`. */
  method Push<T>(items: seq<T>, cols: int, grid: seq<seq<T>>, idx: int) returns (next: seq<seq<T>>)
    requires 0 <= idx < |items| <= 7 * cols
    requires FilledUpTo(items, cols, grid, idx)
    ensures FilledUpTo(items, cols, next, idx + 1)
  {
    var col := idx / 7;
    PushLandsAtEnd(idx);
    var row := idx % 7;
    assert 7 * col + row == idx;
    next := grid[col := grid[col] + [items[idx]]];
    forall k | 0 <= k < cols
      ensures |next[k]| == ColumnSize(idx + 1, k)
    {
      ColumnGrows(idx, k);
    }
    forall k, j | 0 <= k < cols && 0 <= j < |next[k]|
      ensures 7 * k + j < idx + 1 && next[k][j] == items[7 * k + j]
    {
      if k == col && j == row {
        assert next[k][j] == items[idx];
      } else {
        assert next[k][j] == grid[k][j];
      }
    }
  }

  /** Date `idx` is the next free row of column `idx / 7`, which then holds `idx / 7`'s dates up to `idx`. */
  lemma PushLandsAtEnd(idx: int)
    requires idx >= 0
    ensures ColumnSize(idx, idx / 7) == idx - 7 * (idx / 7) == idx % 7
    ensures ColumnSize(idx + 1, idx / 7) == idx % 7 + 1
  {
  }

  lemma ColumnGrows(idx: int, k: int)
    requires idx >= 0 && k >= 0
    ensures ColumnSize(idx + 1, k) == ColumnSize(idx, k) + (if k == idx / 7 then 1 else 0)
  {
  }

  /** Date index i sits in column floor(i / 7), at row i mod 7. */
  lemma DateInColumn(dates: seq<Instant>, cols: int, grid: seq<seq<Cell>>, i: int)
    requires |dates| <= 7 * cols && IsGridOf(dates, cols, grid)
    requires 0 <= i < |dates|
    ensures i / 7 < cols && i % 7 < |grid[i / 7]| && grid[i / 7][i % 7] == CellOf(dates[i])
  {
    assert 7 * (i / 7) + i % 7 == i;
  }

  /** `Math.min(cols, Math.max(1, maxCols))`. */
  function RenderCols(cols: int, maxCols: int): (r: int)
    ensures cols >= 1 ==> 1 <= r <= cols
    ensures cols >= 1 && 1 <= maxCols <= cols ==> r == maxCols
    ensures maxCols >= cols ==> r == cols
    ensures cols < 1 ==> r == cols
  {
    var atLeastOne := if maxCols > 1 then maxCols else 1;
    if cols < atLeastOne then cols else atLeastOne
  }

  /** `s.slice(start)`: a negative start counts from the end, clamped to the bounds. */
  function SliceFrom<T>(s: seq<T>, start: int): (r: seq<T>)
    ensures 0 <= start <= |s| ==> r == s[start..]
    ensures -|s| <= start < 0 ==> r == s[|s| + start..]
  {
    var from := if start < 0 then (if |s| + start > 0 then |s| + start else 0) else (if start < |s| then start else |s|);
    s[from..]
  }

  /** `grid.slice(-renderCols)`: for 1 <= k <= the number of columns, the last k of them. */
  lemma RenderedAreLastColumns(grid: seq<seq<Cell>>, k: int)
    requires 1 <= k <= |grid|
    ensures |SliceFrom(grid, -k)| == k && SliceFrom(grid, -k) == grid[|grid| - k..]
  {
  }

  /** `colorFor`. */
  function ColorFor(data: map<string, Status>, iso: string): (color: string)
    ensures IsHexColor(color)
  {
    if iso !in data then "#e5e7eb"
    else match data[iso]
      case Perfect => "#22c55e"
      case Good => "#86efac"
      case Missed => "#d1d5db"
  }

  /** Every status, and a missing entry, is shown in a colour of its own. */
  lemma ColorForDistinguishes(data: map<string, Status>, a: string, b: string)
    requires ColorFor(data, a) == ColorFor(data, b)
    ensures a in data <==> b in data
    ensures a in data ==> data[a] == data[b]
  {
    assert "#e5e7eb"[1] != "#22c55e"[1] && "#e5e7eb"[1] != "#86efac"[1] && "#e5e7eb"[1] != "#d1d5db"[1];
    assert "#22c55e"[1] != "#86efac"[1] && "#22c55e"[1] != "#d1d5db"[1] && "#86efac"[1] != "#d1d5db"[1];
  }

  const EmptyCellColor: string := "#f3f4f6"

  /** The seven rendered cells of a column: a date's colour, or the blank colour below the last date. */
  function ColumnColors(data: map<string, Status>, column: seq<Cell>): (colors: seq<string>)
    ensures |colors| == 7
    ensures forall r :: 0 <= r < 7 ==>
      colors[r] == if r < |column| then ColorFor(data, column[r].iso) else EmptyCellColor
  {
    seq(7, r requires 0 <= r < 7 => if r < |column| then ColorFor(data, column[r].iso) else EmptyCellColor)
  }

  /**
   * What a rendered cell of the grid shows: row r of column c is coloured for the
   * key of date 7c + r when that date exists, and blank below the last date.
   */
  lemma RenderedCellColor(dates: seq<Instant>, cols: int, grid: seq<seq<Cell>>, data: map<string, Status>, c: int, r: int)
    requires IsGridOf(dates, cols, grid)
    requires 0 <= c < cols && 0 <= r < 7
    ensures ColumnColors(data, grid[c])[r] ==
      if 7 * c + r < |dates| then ColorFor(data, ToIso(dates[7 * c + r])) else EmptyCellColor
  {
    if r < |grid[c]| {
      assert grid[c][r] == CellOf(dates[7 * c + r]);
    }
  }
}
