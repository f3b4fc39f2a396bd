# WakeWalk core, modelled in Dafny

WakeWalk is a React Native wake-up alarm. The user arms an alarm (or a nap) for an hour and a minute. The alarm rings through a scheduled notification and, on iOS, a native alarm module. Stopping an alarm in time starts a "wake walk": the pedometer is polled every 15 seconds until 100 steps are taken or 60 minutes after the alarm time have passed. Each day's result goes into a persisted daily-outcome store. A calendar, a contribution graph and a streak counter are read from that store.

This project models that core and proves properties of the model. The modules follow the source files:

| module | file | models |
|---|---|---|
| `Time`, `Strings`, `JsMath`, `Json`, `Wrappers` | time.dfy, strings.dfy, js_math.dfy, json.dfy, wrappers.dfy | `src/utils/time.ts`; the parts of JavaScript `Date`, `Number`, `String` and `JSON` the app relies on |
| `Colors`, `ColorPicker` | color.dfy, color_picker.dfy | `src/utils/color.ts`; the RGB side of `src/components/ColorPickerModal.tsx` |
| `DailyOutcomes` | daily_outcome.dfy | `src/storage/dailyOutcome.ts` |
| `AsyncStorageState` and the four context modules | async_storage_state.dfy, alarm_state_context.dfy, alarm_settings_context.dfy, time_selection_context.dfy, theme_context.dfy | `src/hooks/useAsyncStorageState.ts` and the persisted contexts in `src/context/` |
| `Sounds` | sounds.dfy | `src/constants/sounds.ts` |
| `ScrollPicker` | scroll_picker.dfy | `src/hooks/useScrollPicker.ts` |
| `Streaks`, `CalendarData`, `ContributionGraph` | streaks.dfy, calendar_data.dfy, contribution_graph.dfy | `src/hooks/useStreaks.ts`, `src/hooks/useCalendarData.ts`, `components/ContributionGraph.tsx` |
| `AlarmScheduler`, `AlarmHandler`, `WakeWalkSession` | alarm_scheduler.dfy, alarm_handler.dfy, wake_walk_session.dfy | `src/hooks/useAlarmScheduler.ts`, `src/hooks/useAlarmHandler.ts`, `src/hooks/useWakeWalkSession.ts` |
| `AppConfig`, `GenerateIcons` | app_config.dfy, generate_icons.dfy | `app.config.js`, `scripts/generate-icons.js` |

How the model is built:

- **Time.** An `Instant` is an integer count of milliseconds on the device's local clock. The clock has no time zone and no daylight saving. Day 0 is 1 January of year 1 in the proleptic Gregorian calendar. The `Date` getters (`getFullYear`, `getMonth`, `getDate`, `getDay`, `getHours`, …) are functions of the instant, and the model proves the civil-date conversion is a bijection.
- **Foreign calls.** AsyncStorage, the notification service, the native alarm module, the pedometer and the clock are not modelled. Their answers are parameters of the operation that calls them, for example whether a read fails, whether permission is granted, or the step count read. Every call made into the notification service or the native module is appended to an effect log, so contracts can state which calls happen and in what order.
- **State.** A React hook instance whose state and refs change is a `class`. Each of its handlers is a `method` with a `modifies` clause. Each handler is proved to move its fields exactly as a pure step function says, for example `AlarmScheduler.StopStep`, `WakeWalkSession.CheckStep` or `AsyncStorageState.AfterSet`. The properties are proved about those step functions.
- **Atomic handlers.** Each `async` handler runs to completion as one step at one `now`. A `setState` call takes effect at once.
- **Persisted contexts.** Each context's stored record is a `Json` value. Its validator is a predicate, and `Decode` is proved to succeed exactly when the validator passes. Each context proves a round trip through save and load, and that its defaults are valid.
- **Loops.** A loop in the source is a `while` loop with invariants: building the scroll picker's data array in place, the calendar's day and padding loops, the streak scans, the contribution grid, and the icon index.

Where the app's design description and the code differ, the model follows the code:

- An `AlarmError` event always sets the alarm idle. No error message is treated as harmless.
- `useAlarmScheduler` has no snooze, no snooze budget and no "adjusting" guard against its own stop echo. `useAlarmHandler` still reads `snoozeAlarm` and `remainingSnoozes` from it.
- The handler passes an auto-stop callback that the scheduler ignores. An `AlarmStopped` event only sets the alarm idle, and the walk is started only by the user's stop (`handleStopAlarm`).
- `overwriteDailyOutcome` spreads the new outcome over the existing record, so fields the new outcome lacks, such as `outcome`, survive (`AlarmHandler.RearmKeepsOutcome`). It does not replace the record.
- `finalizeSession` sets the terminal session and clears it within the same call, so no success or fail session is ever left visible.
- `startNativeAlarm` is called with four arguments. Its fifth parameter, `soundEnabled`, is left undefined.

## Model

| member | source | states |
|---|---|---|
| Time.TimeOfDay | src/utils/time.ts:24-28 | the time within the day lies in [0, ms per day) |
| Time.StartOfDay | src/hooks/useCalendarData.ts:48-49 | `setHours(0, 0, 0, 0)`: the midnight at or before the instant, on the same day and at time 0 |
| Time.MinuteOfDay | src/utils/time.ts:1-5 | minutes since midnight lie in [0, 1440) |
| Time.Hours | src/utils/time.ts:2 | `getHours()` lies in [0, 24) |
| Time.Minutes | src/utils/time.ts:3 | `getMinutes()` lies in [0, 60) |
| Time.Seconds | src/utils/time.ts:26 | `getSeconds()` lies in [0, 60) |
| Time.Millis | src/utils/time.ts:26 | `getMilliseconds()` lies in [0, 1000) |
| Time.Month | src/utils/time.ts:9 | `getMonth() + 1` lies in 1..12 |
| Time.DayOfMonth | src/utils/time.ts:10 | `getDate()` lies in 1..31 |
| Time.WeekdayOfDay | src/hooks/useCalendarData.ts:42 | `getDay()` lies in 0..6 |
| Time.DaysInMonth | src/hooks/useCalendarData.ts:38-39 | the length of a month, `new Date(year, month + 1, 0).getDate()`, is between 28 and 31 |
| Time.DaysBeforeMonth | src/hooks/useCalendarData.ts:37-38 | no days come before January, a whole year before month 13, and the count lies in 0..366 |
| Time.FindYear | src/utils/time.ts:8 | the year found for a day number is the one whose first day is at or before it and whose next year starts after it |
| Time.FindMonth | src/utils/time.ts:9 | the month found for a day of the year is the one containing it |
| Time.CivilFromDays | src/utils/time.ts:8-10 | the civil date of a day number is a valid date that converts back to the same day number |
| Time.CivilRoundTrip | src/utils/time.ts:8-10 | converting a valid civil date to its day number and back gives the date |
| Time.DaysFromCivilInjective | src/utils/time.ts:8-10 | two valid civil dates with the same day number are equal |
| Time.MidnightOfDay | src/hooks/useCalendarData.ts:37 | midnight of day n is on day n, at time 0 |
| Time.WeekdayAfter | src/hooks/useCalendarData.ts:42 | k days later the weekday has moved on by k, mod 7 |
| Time.FieldsOfAtTimeOfDay | src/hooks/useAlarmScheduler.ts:96 | a time set from a day and an in-range hour and minute reads back that day, hour and minute, with seconds and ms 0 |
| Time.FormatClockTimeReadsBack | src/utils/time.ts:1-5 | `formatClockTime` is the hour unpadded, " : ", and the minute in two digits; each side reads back as its field, and the hour has one digit iff it is below 10 |
| Time.DateKeyOfSameDay | src/utils/time.ts:7-12 | two instants on the same day have the same date key |
| Time.DateKeyRoundTrip | src/utils/time.ts:7-12 | for a non-negative year, splitting the key on '-' gives exactly three parts that read back as year, month and day, month and day two digits each; a four-digit year gives a ten-character key |
| Time.KeyParts | src/utils/time.ts:8-11 | `year-MM-DD` written from three numbers splits back into them |
| Time.DateKeyIdentifiesDay | src/utils/time.ts:7-12 | for non-negative years, two instants share a key iff they are on the same day |
| Time.IsoYear | src/hooks/useAlarmHandler.ts:178 | the year of `toISOString` has at least four characters, and for four-digit years it is the plain number |
| Time.IsoString | src/hooks/useAlarmHandler.ts:178 | `toISOString` is at least 24 characters long |
| Time.IsoStringStartsWithDateKey | src/hooks/useAlarmHandler.ts:165-178 | for a four-digit year the ISO string has 24 characters and its first ten are the date key |
| Time.AddMinutes | src/utils/time.ts:14-18 | the result is exactly the given number of minutes after the input |
| Time.AddMinutesProperties | src/utils/time.ts:14-18 | adding 0 minutes gives the input back, adding a then b is adding a + b, and a positive amount is strictly later |
| Time.IsBeforeIsStrictOrder | src/utils/time.ts:20-22 | `isBefore` is irreflexive, asymmetric, transitive and total on distinct instants |
| Time.ClampDateToMinute | src/utils/time.ts:24-28 | seconds and ms become 0, while day, hour and minute are kept; the result is at most the input and less than a minute before it |
| Time.ClampDateToMinuteIdempotent | src/utils/time.ts:24-28 | clamping twice is clamping once |
| Strings.NatToString | src/utils/time.ts:2 | `toString()` of a natural number is a non-empty string of digits |
| Strings.PadStart | src/utils/time.ts:3 | `padStart(n, c)` gives max(length, n) characters: the pad character, then the input |
| Strings.NumberOfPad2 | src/utils/time.ts:3 | a number padded to two digits still reads back as the number |
| Strings.NumberOfNatToString | src/utils/time.ts:2 | a number's decimal text reads back as the number |
| Strings.Split | src/hooks/useStreaks.ts:75 | `split(sep)` always gives at least one part |
| Strings.SplitThree | src/hooks/useStreaks.ts:75 | joining three separator-free parts with the separator and splitting gives them back |
| Strings.RemoveFirst | src/utils/color.ts:2 | `replace(pattern, '')` either keeps the length or removes exactly one pattern's length |
| Strings.ParseHex | src/utils/color.ts:3 | `parseInt(_, 16)` is NaN exactly when no hex digit follows an optional leading `0x`/`0X` |
| Strings.ParseHexSkipsPrefix | src/utils/color.ts:3 | `0x` alone is NaN, either case of the prefix is skipped alike, and only one prefix is skipped |
| Strings.ParseHexOfPaddedByte | src/utils/color.ts:3-11 | a byte written in hex and padded to two digits parses back as the byte |
| Strings.NatToHex | src/utils/color.ts:11 | `toString(16)` of a natural number is a non-empty string of lower-case hex digits |
| Strings.Lower | src/constants/sounds.ts:151-154 | `toLowerCase()` keeps the length and lower-cases each character |
| JsMath.JsRem | src/hooks/useScrollPicker.ts:39 | JavaScript `%`: the remainder has the sign of the dividend, agrees with the mathematical remainder for non-negative dividends, and differs from it by the divisor otherwise |
| JsMath.Round | src/components/ColorPickerModal.tsx:178 | `Math.round` is within one half of its argument, halves rounded up |
| DailyOutcomes.MergeLaws | src/storage/dailyOutcome.ts:72-79 | object spread as the store uses it: spreading `{}` changes nothing, spreads associate, and spreading a record over itself gives it back |
| Wrappers.Get | src/storage/dailyOutcome.ts:49-52 | `map[dateKey]` (and `obj[name]` of a parsed object) is `Some` iff the key is present, with the stored value |
| DailyOutcomes.UpsertRecord | src/storage/dailyOutcome.ts:64-83 | each field comes from the patch if present, else the defaults, else the existing record; `dateKey` falls back to the key argument and `ruleVersion` to 1 only when no layer has one; `updatedAt` is always the current time |
| DailyOutcomes.OverwriteRecord | src/storage/dailyOutcome.ts:85-98 | the key argument and the current time are forced; every other field comes from the new outcome if present, else from the existing record |
| DailyOutcomes.UpsertEmptyPatchKeepsRecord | src/storage/dailyOutcome.ts:72-79 | an empty patch without defaults keeps every field of a record and only restamps it |
| DailyOutcomes.OverwriteWithoutExisting | src/storage/dailyOutcome.ts:90-95 | on a new day an overwrite stores the given outcome with the key and time stamped |
| DailyOutcomes.ReadMap | src/storage/dailyOutcome.ts:24-39 | the stored object is read back; a missing or empty value, unparsable text, a non-object value and a failed read all give `{}` |
| DailyOutcomes.WriteMap | src/storage/dailyOutcome.ts:41-47 | a successful write reads back as the written map; a failed one leaves the old value |
| DailyOutcomes.WritesTouchOnlyTheirKey | src/storage/dailyOutcome.ts:80-95 | upsert and overwrite set their key and leave every other entry as it was; upsert adds exactly its key to the key set |
| DailyOutcomes.RemoveTouchesOnlyItsKey | src/storage/dailyOutcome.ts:100-106 | removal deletes its key and no other; a missing key leaves the map unchanged |
| DailyOutcomes.UpsertThenGet | src/storage/dailyOutcome.ts:64-83 | after a successful upsert the key reads back as the upserted record; when the read before it failed, every other record is lost, because the empty map was written back |
| DailyOutcomes.OutcomeStore.constructor | src/storage/dailyOutcome.ts:3 | the store holds what storage holds under its key |
| DailyOutcomes.OutcomeStore.Get | src/storage/dailyOutcome.ts:49-52 | the stored record for the key, or null when the read fails, nothing is stored or the key is missing |
| DailyOutcomes.OutcomeStore.GetMap | src/storage/dailyOutcome.ts:54-56 | the stored map, or `{}` when there is none |
| DailyOutcomes.OutcomeStore.Upsert | src/storage/dailyOutcome.ts:64-83 | the returned record is the merged one, and the map read with it under the key is written back |
| DailyOutcomes.OutcomeStore.Overwrite | src/storage/dailyOutcome.ts:85-98 | the returned record is the overwritten one, and the map read with it under the key is written back |
| DailyOutcomes.OutcomeStore.Remove | src/storage/dailyOutcome.ts:100-106 | the map without the key is written only when the key was present; otherwise nothing is written |
| Colors.Substring | src/utils/color.ts:3-5 | `substring` with clamped indices gives at most `b - a` characters |
| Colors.ParseTwoHexDigits | src/utils/color.ts:3-5 | `parseInt(_, 16)` of two hex digits is their value, below 256 |
| Colors.ParseChannels | src/utils/color.ts:2-5 | for a `#rrggbb` colour the three channels are the values of the three digit pairs, each below 256 |
| Colors.Darken | src/utils/color.ts:7-9 | a channel is lowered by 40 and floored at 0, so it never grows; NaN stays NaN |
| Colors.ByteText | src/utils/color.ts:11 | a byte is written as two lower-case hex digits that read back as the byte |
| Colors.ChannelsOfBytes | src/utils/color.ts:11 | three bytes written as `#` and three padded hex pairs give a lower-case hex colour whose channels read back as the bytes |
| Colors.DarkerShadeOfHexColor | src/utils/color.ts:1-12 | the darker shade of a hex colour is a lower-case hex colour whose channels are the input's darkened, none raised |
| Colors.DarkerShadeOfBlack | src/utils/color.ts:1-12 | black stays black |
| Colors.Brightness | src/utils/color.ts:14-21 | the brightness is a number iff all three channels parse |
| Colors.BrightnessInRange | src/utils/color.ts:20 | for a hex colour the brightness lies between 0 and 255 |
| Colors.BrightnessMonotone | src/utils/color.ts:20 | a colour no darker in any channel is no darker overall |
| Colors.PrefixedRedIsNaN | src/utils/color.ts:1-21 | a colour whose red pair starts `0x`/`0X` (such as "#0x0000") has NaN red, NaN brightness, and a darker shade written "#NaN" then the other two channels |
| ColorPicker.RgbToHexRoundTrip | src/components/ColorPickerModal.tsx:173-175 | components in 0..255 give a seven-character lower-case hex colour whose channels, read as `color.ts` reads them, are the components |
| ColorPicker.WithComponent | src/components/ColorPickerModal.tsx:178 | the named component is replaced and the other two are kept |
| ColorPicker.HexOfByte | src/components/ColorPickerModal.tsx:174 | a byte of 16 or more is written as its two hex digits, with no padding |
| ColorPicker.InitialRgbIsInitialColor | src/components/ColorPickerModal.tsx:162-166 | the initial slider values (139, 92, 246) are the default initial colour '#8B5CF6', in lower case |
| ColorPicker.RgbChangeReadsBack | src/components/ColorPickerModal.tsx:177-183 | when every component is in 0..255 after a change, the reported colour reads back as the new triple |
| ColorPicker.ColorPickerState.constructor | src/components/ColorPickerModal.tsx:162-166 | the sliders start at (139, 92, 246) and the selection at the initial colour, with nothing reported |
| ColorPicker.ColorPickerState.HandleColorSelect | src/components/ColorPickerModal.tsx:168-171 | a preset becomes the selection and is reported; the sliders stay |
| ColorPicker.ColorPickerState.HandleRgbChange | src/components/ColorPickerModal.tsx:177-183 | the rounded value replaces one component; the hex of the new triple becomes the selection and is reported |
| ContributionGraph.ToIso | components/ContributionGraph.tsx:79-84 | `toISO` is the app's date key |
| ContributionGraph.Dates | components/ContributionGraph.tsx:17-27 | there are `days` dates, none for a non-positive count, and the i-th is today moved back `days - 1 - i` days |
| ContributionGraph.DatesEndToday | components/ContributionGraph.tsx:17-27 | the last date is today, consecutive dates are consecutive days, and every date keeps today's time of day |
| ContributionGraph.DatesHaveDistinctKeys | components/ContributionGraph.tsx:17-27 | two different dates in the window have different keys, once the years are not negative |
| ContributionGraph.Cols | components/ContributionGraph.tsx:29 | `Math.ceil(days / 7)` is the least c with `days <= 7c` |
| ContributionGraph.ColumnSize | components/ContributionGraph.tsx:52-55 | a column holds 0 to 7 dates, and they exist |
| ContributionGraph.Grid | components/ContributionGraph.tsx:50-55 | there are `cols` columns; column c holds dates 7c to 7c + 6 that exist, in order |
| ContributionGraph.EmptyColumns | components/ContributionGraph.tsx:51 | the grid starts as `cols` empty columns |
| ContributionGraph.Push | components/ContributionGraph.tsx:52-55 | pushing date idx onto column idx / 7 keeps the grid holding exactly the first idx + 1 dates, in order |
| ContributionGraph.PushLandsAtEnd | components/ContributionGraph.tsx:53-54 | date idx lands at row idx mod 7 of its column, which then holds one more date |
| ContributionGraph.ColumnGrows | components/ContributionGraph.tsx:53-54 | a push grows only the column idx / 7, by one |
| ContributionGraph.DateInColumn | components/ContributionGraph.tsx:50-55 | date i sits in column i / 7 at row i mod 7 |
| ContributionGraph.RenderCols | components/ContributionGraph.tsx:33 | with at least one column, between 1 and all of them are shown: `maxCols` when it is in range, all when it is larger |
| ContributionGraph.SliceFrom | components/ContributionGraph.tsx:60 | `slice` with a negative start counts from the end, an in-range start is an ordinary suffix |
| ContributionGraph.RenderedAreLastColumns | components/ContributionGraph.tsx:60 | `grid.slice(-k)` is the last k columns |
| ContributionGraph.ColorFor | components/ContributionGraph.tsx:35-47 | every cell colour is a `#rrggbb` colour |
| ContributionGraph.ColorForDistinguishes | components/ContributionGraph.tsx:35-47 | a missing entry and each of the three statuses have colours of their own |
| ContributionGraph.RenderedCellColor | components/ContributionGraph.tsx:50-68 | row r of grid column c is coloured for the key of date 7c + r when that date exists, and blank below the last date |
| AppConfig.Variant | app.config.js:7-8 | `APP_VARIANT` when set, even when empty, else `EAS_BUILD_PROFILE`, else 'development' |
| AppConfig.BundleIdFor | app.config.js:5-18 | every bundle identifier starts with the base identifier |
| AppConfig.UpdatesFor | app.config.js:21-29 | updates are enabled iff the variant is not 'development', always from the one URL |
| AppConfig.BundleIdClasses | app.config.js:10-17 | the id ends in '.dev' iff the variant is 'development', in '.personal' iff it is 'personal', and is the base id iff it is neither |
| AppConfig.DevBuildsHaveNoUpdates | app.config.js:5-29 | from one environment, a '.dev' bundle id goes with disabled updates, and every other id with enabled ones |
| AppConfig.UnsetEnvIsDevelopment | app.config.js:5-29 | with neither variable set the build is a development build without updates |
| CalendarData.StatusOf | src/hooks/useCalendarData.ts:53-66 | a day is future iff it is after today; success (fail) iff it is not after today and has a non-nap record whose outcome is success (fail); every other case is empty |
| CalendarData.NapDaysAreEmpty | src/hooks/useCalendarData.ts:56-58 | a nap record on or before today gives an empty day, whatever its outcome |
| CalendarData.ClassifyDay | src/hooks/useCalendarData.ts:53-66 | the status chain of the day loop computes `StatusOf` |
| CalendarData.ShiftMonth | src/hooks/useCalendarData.ts:37-38 | month arithmetic carries into the year: the result's month is 0..11 and year * 12 + month moved by exactly the offset |
| CalendarData.SetMonthBack | src/hooks/useCalendarData.ts:29-33 | the month `setMonth(getMonth() - back)` lands on, as written (a day the target month lacks rolls into the month after); always a month 0..11 |
| CalendarData.SetMonthBackAgrees | src/hooks/useCalendarData.ts:29-33 | up to day 28 of the current month, the loop's bucket is the month `back` months earlier |
| CalendarData.SetMonthBackRepeatsMarch | src/hooks/useCalendarData.ts:29-33 | on 31 March 2025 the loop's buckets 10 and 11 are both March 2025, where bucket 10 should be February |
| CalendarData.BucketsAreConsecutive | src/hooks/useCalendarData.ts:28-33 | the intended buckets: the last is the current month and each is the month after the one before |
| CalendarData.CellDateFields | src/hooks/useCalendarData.ts:48-50 | `new Date(year, month, day)` at midnight has time 0 and is that very calendar day, so `getDateKey` names it |
| CalendarData.LeadingCells | src/hooks/useCalendarData.ts:37-45 | the number of leading nulls is `firstDay.getDay()`, in 0..6 |
| CalendarData.CellAtDay | src/hooks/useCalendarData.ts:47-69 | after the leading nulls, cell `lead + day - 1` is the day cell of `day` |
| CalendarData.CellAtPadding | src/hooks/useCalendarData.ts:43-45 | cells before the first day and after the last are null |
| CalendarData.OneMoreCell | src/hooks/useCalendarData.ts:44 | pushing the next cell keeps the list a prefix of the month's cells |
| CalendarData.PaddedLength | src/hooks/useCalendarData.ts:71-73 | the padded length is the least multiple of 7 at or above the cell count |
| CalendarData.CellColumnIsWeekday | src/hooks/useCalendarData.ts:42-48 | day `day` sits in the column (index mod 7) of its own weekday, Sunday being 0 |
| CalendarData.MonthCells | src/hooks/useCalendarData.ts:41-73 | the cell list of a month: `getDay()` nulls, the days 1..daysInMonth in order, then nulls up to a multiple of 7 |
| CalendarData.AppendDays | src/hooks/useCalendarData.ts:47-69 | one cell per day of the month, each classified by `StatusOf` of its record |
| CalendarData.PadToWeeks | src/hooks/useCalendarData.ts:71-73 | nulls are pushed until the length is a multiple of 7, and the prefix is kept |
| CalendarData.ChunkWeeks | src/hooks/useCalendarData.ts:75-77 | the list cut into rows of exactly 7, row w holding cells 7w..7w+6 |
| CalendarData.BuildMonth | src/hooks/useCalendarData.ts:35-79 | a month bucket: its year and month, as many weeks as the leading blanks and the days fill rounded up, each of 7 cells, week w column j being cell 7w + j |
| CalendarData.EveryDayIsShown | src/hooks/useCalendarData.ts:35-79 | in a laid-out month each day of the month is the cell at week w, column j with 7w + j its position after the leading blanks |
| CalendarData.Calendar.BuildCalendar | src/hooks/useCalendarData.ts:21-83 | twelve buckets, the consecutive months ending with the current one, each laid out as `BuildMonth` says (week count and every cell) with today at midnight |
| CalendarData.Calendar.constructor | src/hooks/useCalendarData.ts:19 | the calendar starts with no months |
| Streaks.CountingDays | src/hooks/useStreaks.ts:28-32 | a day is kept iff it is a key whose record is a non-nap success; distinct keys stay distinct |
| Streaks.Insert | src/hooks/useStreaks.ts:33 | inserting a new day into an increasing list keeps it increasing and adds exactly that day |
| Streaks.SortDays | src/hooks/useStreaks.ts:33 | `.sort()` of distinct days is strictly increasing and has the same elements |
| Streaks.SuccessDays | src/hooks/useStreaks.ts:28-33 | `sortedDates` is strictly increasing and holds exactly the keys whose record counts |
| Streaks.RunSpan | src/hooks/useStreaks.ts:99-153 | a run of n consecutive entries spans n - 1 days |
| Streaks.CurrentStreak | src/hooks/useStreaks.ts:66-97 | without a success today: 0 and no dates; with one: the run of n days ending today, whose days before today are all present while the day before the run is not, from today - n + 1 to today, later days skipped |
| Streaks.LongestStreak | src/hooks/useStreaks.ts:99-153 | the length of the longest run of consecutive days and the first and last day of the earliest run of that length |
| Streaks.CloseRun | src/hooks/useStreaks.ts:131-138 | closing a run that cannot be extended leftward: the best run so far is the old one, unless the closed run is strictly longer |
| Streaks.RunGrows | src/hooks/useStreaks.ts:128-129 | a run extends when the next entry is the next day |
| Streaks.LongestFound | src/hooks/useStreaks.ts:142-153 | once every run is closed, the kept run is the earliest longest one |
| Streaks.RunsStopAtBreak | src/hooks/useStreaks.ts:128-138 | a run ending inside a run that cannot be extended leftward starts inside it |
| Streaks.NextDayIsNextEntry | src/hooks/useStreaks.ts:125-128 | in an increasing list, day x + 1, when present, is the entry right after x |
| Streaks.ConsecutiveDaysFormRun | src/hooks/useStreaks.ts:66-153 | n consecutive days present in the list form a run of n entries starting at the first |
| Streaks.LongestSpan | src/hooks/useStreaks.ts:142-153 | the longest streak is at least 1 and its end minus its start is its length minus 1 |
| Streaks.CurrentWithinLongest | src/hooks/useStreaks.ts:66-153 | the current streak never exceeds the longest streak |
| Streaks.CurrentStreakDays | src/hooks/useStreaks.ts:59-97 | read back in the outcome map, every day of the current streak has a counting record and the day before it does not |
| Streaks.CalculateStreaks | src/hooks/useStreaks.ts:23-163 | with no counting record, all zeros and nulls; the current streak is 0 unless today counts, and then runs back from today over counting days only; the longest is the earliest longest run (at least 1); its span is its length minus 1 and the current streak is no longer |
| Streaks.StreaksOfDays | src/hooks/useStreaks.ts:46-162 | both loops over the sorted days, with the same results stated on the sorted list |
| ScrollPicker.NormalizeIndex | src/hooks/useScrollPicker.ts:31-43 | 0 with no items; otherwise in [0, n): clamped in non-cyclic mode, the index mod n (JavaScript `%` corrected to be non-negative) in cyclic mode |
| ScrollPicker.NormalizeIndexIdempotent | src/hooks/useScrollPicker.ts:31-43 | normalising twice is normalising once, and an in-range index is left alone |
| ScrollPicker.NormalizeIndexPeriodic | src/hooks/useScrollPicker.ts:39-40 | in cyclic mode, indices a whole number of cycles apart normalise alike |
| ScrollPicker.Data | src/hooks/useScrollPicker.ts:50-65 | `data` is empty without items, the items in non-cyclic mode, and 100 copies with data[k] = items[k mod n] in cyclic mode |
| ScrollPicker.BuildData | src/hooks/useScrollPicker.ts:54-64 | the chunked copy into a fresh array computes `Data` |
| ScrollPicker.CopyChunk | src/hooks/useScrollPicker.ts:60-62 | the inner loop writes the items from `offset` on and keeps the cells before it |
| ScrollPicker.ChunkIndex | src/hooks/useScrollPicker.ts:59-61 | cell `chunk * n + i` holds item i |
| ScrollPicker.ChunkFits | src/hooks/useScrollPicker.ts:55-59 | every chunk lies inside the array of `n * 100` cells |
| ScrollPicker.TargetIndexShowsSelection | src/hooks/useScrollPicker.ts:67-73 | with items, the target index is a valid index of `data` and shows the selected item |
| ScrollPicker.OffsetReadsBackRow | src/hooks/useScrollPicker.ts:75-78 | `getIndexFromOffset` of a row's offset is that row, normalised |
| ScrollPicker.TargetIndexNormalizes | src/hooks/useScrollPicker.ts:67-73 | the target row normalises to the normalised selection |
| ScrollPicker.TargetOffsetReadsBack | src/hooks/useScrollPicker.ts:104-110 | reading back the offset the picker scrolls to gives the normalised selection |
| ScrollPicker.ScrollToTargetStep | src/hooks/useScrollPicker.ts:84-102 | no effect without a scroll view or items or for a target already requested; the first request jumps unanimated, later ones animate and set the suppress flag; the target is remembered |
| ScrollPicker.ScrollStep | src/hooks/useScrollPicker.ts:113-126 | the row under the offset is remembered, and a haptic tick fires iff it differs from the one before |
| ScrollPicker.MomentumEndStep | src/hooks/useScrollPicker.ts:128-146 | a suppressed end only clears the flag; otherwise `onValueChange` fires iff the row under the offset differs from the normalised selection |
| ScrollPicker.AnimatedScrollSuppressesOnce | src/hooks/useScrollPicker.ts:100-101 | after an animated scroll the next momentum end reports nothing and clears the flag, and the one after it is handled normally |
| ScrollPicker.Picker.ScrollToTarget | src/hooks/useScrollPicker.ts:84-102 | the refs and issued effects move as `ScrollToTargetStep` says |
| ScrollPicker.Picker.HandleScroll | src/hooks/useScrollPicker.ts:113-126 | the refs and issued effects move as `ScrollStep` says |
| ScrollPicker.Picker.HandleMomentumScrollEnd | src/hooks/useScrollPicker.ts:128-146 | the refs and issued effects move as `MomentumEndStep` says |
| ScrollPicker.Picker.constructor | src/hooks/useScrollPicker.ts:22-27 | refs start cleared and the initial offset is the target offset of the first render |
| Sounds.FlattenAppend | src/constants/sounds.ts:94-97 | flattening one more group appends its sounds at the end |
| Sounds.CollectSounds | src/constants/sounds.ts:94-97 | the `for`/`push` loop lists every group's sounds, group after group, in declaration order |
| Sounds.Ids | src/constants/sounds.ts:92 | the id list has one id per sound, in order |
| Sounds.BuiltInSoundsLayout | src/constants/sounds.ts:88-99 | `BUILT_IN_SOUNDS` is the bird group followed by the insect group: ten sounds with pairwise distinct ids |
| Sounds.DefaultSoundId | src/constants/sounds.ts:101 | the default id is 'bird_01_pigeon', and it is a built-in id |
| Sounds.BuildTable | src/constants/sounds.ts:103-119 | the `reduce` into an accumulator builds the id-keyed table `KeyedBy` |
| Sounds.KeyedByLookup | src/constants/sounds.ts:103-119 | with distinct ids the table's keys are exactly the ids, and each id maps to its own sound's value |
| Sounds.BuiltInTables | src/constants/sounds.ts:103-119 | `SOUND_FILE_MAP` and `SOUND_ASSET_MAP` have the same keys and give every built-in id its own file name and asset |
| Sounds.TitleCase | src/constants/sounds.ts:151-154 | `titleCase` keeps the length |
| Sounds.TitleCaseIdempotent | src/constants/sounds.ts:151-154 | title-casing only changes case (lower-casing the result gives the lower-cased input), and doing it twice changes nothing more |
| Sounds.Trim | src/constants/sounds.ts:129 | `trim()` is no longer than its input and neither starts nor ends with white space |
| Sounds.UnderscoresToSpaces | src/constants/sounds.ts:148 | `replace(/_/g, ' ')` turns every '_' into a space and keeps every other character |
| Sounds.ParseDecimal | src/constants/sounds.ts:125-126 | `parseInt(_, 10)` is NaN exactly when the text does not start with a digit |
| Strings.SplitJoin | src/constants/sounds.ts:122 | splitting on '_' an id joined from '_'-free parts gives the parts back |
| Sounds.InsectDisplayName | src/constants/sounds.ts:123-128 | `insect_<digits>` displays as "Insect " and the digits' value, leading zeros dropped |
| Sounds.BirdWithSeaOrRiver | src/constants/sounds.ts:138-142 | a bird id numbered 03 displays as "Bird with Sea" and one numbered 04 as "Bird with River", whatever follows |
| Sounds.BirdDisplayName | src/constants/sounds.ts:132-145 | any other bird id displays the words after its number, space-separated and title-cased |
| Sounds.PigeonDisplayName | src/constants/sounds.ts:132-145 | 'bird_01_pigeon' displays as "Pigeon" |
| Sounds.SeaDisplayName | src/constants/sounds.ts:138-140 | 'bird_03_sea' displays as "Bird with Sea" |
| Sounds.RiverDisplayName | src/constants/sounds.ts:141-142 | 'bird_04_river' displays as "Bird with River" |
| Sounds.FirstInsectDisplayName | src/constants/sounds.ts:123-128 | 'insect_01' displays as "Insect 1" |
| AsyncStorageState.AfterSet | src/hooks/useAsyncStorageState.ts:47-58 | `setState` replaces the state while mounted, and the save effect writes it exactly when hydrated; nothing saved before hydration stays true and the last save is the state |
| AsyncStorageState.Loaded | src/hooks/useAsyncStorageState.ts:26-32 | the load adopts the stored value only when it is present, parses and passes the validator; otherwise the state is kept |
| AsyncStorageState.AfterLoad | src/hooks/useAsyncStorageState.ts:22-44 | after the load attempt the hook is hydrated whatever the outcome, with the adopted or kept state, unless it was unmounted first, when nothing changes |
| AsyncStorageState.EarlySetIsOverwritten | src/hooks/useAsyncStorageState.ts:26-38 | a value set before hydration is replaced by an accepted stored value, and survives when nothing is stored |
| AsyncStorageState.AsyncStorageState.constructor | src/hooks/useAsyncStorageState.ts:18-19 | the state starts at the default, not hydrated, mounted, with nothing saved |
| AsyncStorageState.AsyncStorageState.Load | src/hooks/useAsyncStorageState.ts:22-40 | the load continuation moves the hook as `AfterLoad` says |
| AsyncStorageState.AsyncStorageState.SetState | src/hooks/useAsyncStorageState.ts:47-56 | a state change moves the hook as `AfterSet` says |
| AsyncStorageState.AsyncStorageState.Unmount | src/hooks/useAsyncStorageState.ts:41-43 | the cleanup clears the mounted flag and nothing else |
| AlarmStateContext.Decode | src/context/AlarmStateContext.tsx:34-44 | a value is accepted iff the validator passes it: an object with status idle, armed or ringing, `scheduledAt` null or a string, and a number of snoozes (no sign check); the accepted state is the stored one, field by field |
| AlarmStateContext.DecodeEncode | src/context/AlarmStateContext.tsx:34-44 | every state, a negative snooze count included, passes the validator after a save and reads back unchanged |
| AlarmStateContext.DefaultsAreValid | src/context/AlarmStateContext.tsx:30-32 | the default {idle, null, 0} passes the validator |
| AlarmStateContext.ExposedScheduledAt | src/context/AlarmStateContext.tsx:86-89 | the exposed `scheduledAt` is null iff the stored string is null or empty, and is otherwise that string |
| AlarmStateContext.StoredScheduledAt | src/context/AlarmStateContext.tsx:69 | `setScheduledAt` stores null iff it is given null |
| AlarmStateContext.SetScheduledAtIsExposed | src/context/AlarmStateContext.tsx:65-73 | after `setScheduledAt`, a time is exposed iff one was given |
| AlarmStateContext.NewSnoozes | src/context/AlarmStateContext.tsx:75-82 | a number replaces the count; a function is applied to the previous count |
| AlarmStateContext.AlarmStateProvider.constructor | src/context/AlarmStateContext.tsx:46-56 | the provider holds the storage key, the default state and the validator |
| AlarmStateContext.AlarmStateProvider.ScheduledAt | src/context/AlarmStateContext.tsx:86-89 | the exposed `scheduledAt` of the held state |
| AlarmStateContext.AlarmStateProvider.SetStatus | src/context/AlarmStateContext.tsx:58-63 | only the status changes, through `setState` |
| AlarmStateContext.AlarmStateProvider.SetScheduledAt | src/context/AlarmStateContext.tsx:65-73 | only `scheduledAt` changes, to the ISO string or null, and while mounted a time is exposed iff one was given |
| AlarmStateContext.AlarmStateProvider.SetRemainingSnoozes | src/context/AlarmStateContext.tsx:75-84 | only the snooze count changes, as `NewSnoozes` says |
| AlarmSettingsContext.Decode | src/context/AlarmSettingsContext.tsx:59-72 | a value is accepted iff it is an object with every field of its type and a built-in sound id; the accepted settings are the stored fields |
| AlarmSettingsContext.DecodeEncode | src/context/AlarmSettingsContext.tsx:59-72 | a settings record survives a save and a load iff its sound is a built-in one, and is rejected otherwise |
| AlarmSettingsContext.DefaultsAreValid | src/context/AlarmSettingsContext.tsx:27-33 | the defaults pass the validator, the default ring duration 3 is one of the options [1, 3, 5], and the default sound is 'bird_01_pigeon' |
| AlarmSettingsContext.NumbersAreNotRangeChecked | src/context/AlarmSettingsContext.tsx:63-70 | any number, negative or fractional, passes in the three numeric fields |
| AlarmSettingsContext.AlarmSettingsProvider.constructor | src/context/AlarmSettingsContext.tsx:75-87 | the provider holds the storage key, the defaults and the validator |
| AlarmSettingsContext.AlarmSettingsProvider.RingDurationOptions | src/context/AlarmSettingsContext.tsx:142 | the offered ring durations are [1, 3, 5] |
| AlarmSettingsContext.AlarmSettingsProvider.SetRingDurationMinutes | src/context/AlarmSettingsContext.tsx:89-94 | only the ring duration changes, through `setState` |
| AlarmSettingsContext.AlarmSettingsProvider.SetSelectedSoundId | src/context/AlarmSettingsContext.tsx:96-101 | only the sound id changes |
| AlarmSettingsContext.AlarmSettingsProvider.SetVibrationEnabled | src/context/AlarmSettingsContext.tsx:103-108 | only the vibration flag changes |
| AlarmSettingsContext.AlarmSettingsProvider.SetSoundEnabled | src/context/AlarmSettingsContext.tsx:110-115 | only the sound flag changes |
| AlarmSettingsContext.AlarmSettingsProvider.SetSnoozeEnabled | src/context/AlarmSettingsContext.tsx:117-122 | only the snooze flag changes |
| AlarmSettingsContext.AlarmSettingsProvider.SetSnoozeDurationMinutes | src/context/AlarmSettingsContext.tsx:124-129 | only the snooze duration changes |
| AlarmSettingsContext.AlarmSettingsProvider.SetSnoozeRepeatCount | src/context/AlarmSettingsContext.tsx:131-136 | only the snooze repeat count changes |
| TimeSelectionContext.Decode | src/context/TimeSelectionContext.tsx:35-47 | a value is accepted iff hour is a number in [0, 24), minute a number in [0, 60) and mode 'alarm' or 'nap'; the accepted selection is the stored fields |
| TimeSelectionContext.DecodeEncode | src/context/TimeSelectionContext.tsx:35-47 | a selection survives a save and a load iff hour and minute are in range, and is rejected otherwise |
| TimeSelectionContext.FractionalTimesAccepted | src/context/TimeSelectionContext.tsx:39-44 | integrality is not checked: 7.5 hours and 0.25 minutes are accepted as they are |
| TimeSelectionContext.DefaultsAreValid | src/context/TimeSelectionContext.tsx:31-33 | the default 7:00 in alarm mode passes the validator |
| TimeSelectionContext.TimeSelectionProvider.constructor | src/context/TimeSelectionContext.tsx:50-59 | the provider holds the storage key, the defaults and the validator |
| TimeSelectionContext.TimeSelectionProvider.SetHour | src/context/TimeSelectionContext.tsx:61-66 | only the hour changes, through `setState` |
| TimeSelectionContext.TimeSelectionProvider.SetMinute | src/context/TimeSelectionContext.tsx:68-73 | only the minute changes |
| TimeSelectionContext.TimeSelectionProvider.SetMode | src/context/TimeSelectionContext.tsx:75-80 | only the mode changes |
| ThemeContext.EncodeStrings | src/context/ThemeContext.tsx:38-39 | the stored gradient list is an array of the colour strings, in order |
| ThemeContext.DecodeStrings | src/context/ThemeContext.tsx:38-39 | an all-string array reads back as the list of its strings |
| ThemeContext.Decode | src/context/ThemeContext.tsx:32-41 | a value is accepted iff `themeMode` is 'color' or 'gradient', `themeColor` a string and `gradientColors` an array of strings; the accepted theme is the stored fields |
| ThemeContext.DecodeEncode | src/context/ThemeContext.tsx:32-41 | every theme survives a save and a load, whatever its gradient list |
| ThemeContext.GradientListRule | src/context/ThemeContext.tsx:38-39 | an empty gradient list is accepted, and one non-string element anywhere rejects the whole value |
| ThemeContext.DefaultsAreValid | src/context/ThemeContext.tsx:29-30 | the defaults (colour mode, '#808080' and two gradient colours) survive a save and a load |
| ThemeContext.ThemeProvider.constructor | src/context/ThemeContext.tsx:44-52 | the provider holds the storage key, the defaults and the validator |
| ThemeContext.ThemeProvider.SetThemeMode | src/context/ThemeContext.tsx:54-59 | only the mode changes, through `setState` |
| ThemeContext.ThemeProvider.SetThemeColor | src/context/ThemeContext.tsx:61-66 | only the primary colour changes |
| ThemeContext.ThemeProvider.SetGradientColors | src/context/ThemeContext.tsx:68-73 | only the gradient list changes |
| AlarmScheduler.SoundFileFor | src/hooks/useAlarmScheduler.ts:23-25 | every selected sound plays the one bundled file, because only the default id has an entry and the lookup falls back to it |
| AlarmScheduler.Truncate | src/hooks/useAlarmScheduler.ts:96 | a fractional hour or minute passed to `setHours` is truncated toward zero |
| AlarmScheduler.AlarmTarget | src/hooks/useAlarmScheduler.ts:94-99 | the target is today at the chosen time, or the same time tomorrow when that is not later than now; for a non-negative time it is after now |
| AlarmScheduler.AlarmTargetProperties | src/hooks/useAlarmScheduler.ts:94-99 | for an hour and minute in range the target has exactly those clock fields and zero seconds and ms, lies in (now, now + 1 day], and is today iff today's time is still ahead, tomorrow otherwise |
| AlarmScheduler.CancelStep | src/hooks/useAlarmScheduler.ts:51-61 | a missing or empty id is left alone; any other id is cancelled once and cleared, whether or not the cancel fails; status and time are untouched |
| AlarmScheduler.StopStep | src/hooks/useAlarmScheduler.ts:63-74 | after `stopAlarm` the status is idle, the time is cleared and no notification is pending; the native alarm is stopped on iOS only, after the cancel |
| AlarmScheduler.StopAlarmIdempotent | src/hooks/useAlarmScheduler.ts:63-74 | stopping a stopped alarm changes nothing and cancels nothing |
| AlarmScheduler.ScheduleStep | src/hooks/useAlarmScheduler.ts:88-151 | `scheduleAlarm` resolves iff setup, permission and, on iOS, the native module succeed, and then it is armed for the returned target; any rejection leaves the alarm idle; a failed setup or refused permission leaves exactly the stop's state; the calls are exactly the stop's, then the notification request, then the native start with the fallback sound file only when the schedule succeeds on iOS, so nothing follows the request on Android or with the native module missing; the request's id replaces the cleared one, while a failed request is swallowed |
| AlarmScheduler.ScheduledTimeIsAhead | src/hooks/useAlarmScheduler.ts:88-141 | for a selection in range the armed time is within the next day and carries the selected hour and minute |
| AlarmScheduler.NativeEventStep | src/hooks/useAlarmScheduler.ts:153-199 | no native listener exists on Android; on iOS, triggered means ringing with the pending notification cancelled and haptics only with vibration on, stopped means idle with the notification cancelled, error means idle with the notification left pending, and armed adopts the payload's time only when it has one |
| AlarmScheduler.NotificationReceivedStep | src/hooks/useAlarmScheduler.ts:201-211 | an alarm-category notification sets ringing and clears the time; any other notification changes nothing |
| AlarmScheduler.NotificationResponseStep | src/hooks/useAlarmScheduler.ts:213-225 | only the stop action on an alarm-category notification runs `stopAlarm`; every other response changes nothing |
| AlarmScheduler.Scheduler.constructor | src/hooks/useAlarmScheduler.ts:35-37 | a new hook instance is idle, with no time, no pending notification and no gateway calls |
| AlarmScheduler.Scheduler.CancelScheduledNotification | src/hooks/useAlarmScheduler.ts:51-61 | the state and the calls made are those of `CancelStep` |
| AlarmScheduler.Scheduler.StopAlarm | src/hooks/useAlarmScheduler.ts:63-74 | the state and the calls made are those of `StopStep` |
| AlarmScheduler.Scheduler.ScheduleAlarm | src/hooks/useAlarmScheduler.ts:88-151 | the result, the state and the calls made are those of `ScheduleStep` |
| AlarmScheduler.Scheduler.OnNativeEvent | src/hooks/useAlarmScheduler.ts:153-199 | the state and the calls made are those of `NativeEventStep` |
| AlarmScheduler.Scheduler.OnNotificationReceived | src/hooks/useAlarmScheduler.ts:201-211 | the state is that of `NotificationReceivedStep`, and no gateway is called |
| AlarmScheduler.Scheduler.OnNotificationResponse | src/hooks/useAlarmScheduler.ts:213-225 | the state and the calls made are those of `NotificationResponseStep` |
| AlarmScheduler.Scheduler.Unmount | src/hooks/useAlarmScheduler.ts:233-238 | unmounting runs `stopAlarm` |
| AlarmHandler.ArmedFor | src/hooks/useAlarmHandler.ts:163-172 | the armed session keeps the target and the mode, its deadline is 60 minutes after the target, and its date key is the target's local date |
| AlarmHandler.StopPathFor | src/hooks/useAlarmHandler.ts:64-72 | nothing is recorded when no session is armed or it is a nap; an alarm session stopped at or after its deadline is recorded as missed; one stopped before it starts the walk. Each path is stated both ways |
| AlarmHandler.RearmKeepsOutcome | src/hooks/useAlarmHandler.ts:174-186 | the arm record has no `outcome`, so re-arming on a day that already has a record keeps that record's outcome, and a new day starts without one |
| AlarmHandler.StopPatchKeepsOutcome | src/hooks/useAlarmHandler.ts:72-110 | a stop before the deadline leaves the day's outcome as it was; a missed stop writes 'fail' and clears `achievedAt` |
| AlarmHandler.WalkDeadlineIsFixedAtArm | src/hooks/useAlarmHandler.ts:98-118 | the walk started by a stop runs to the deadline fixed at arm time, which is 60 minutes after the target and later than the stop, and it has the target's date key and a 100-step goal |
| AlarmHandler.AlarmHandler.constructor | src/hooks/useAlarmHandler.ts:39-52 | the handler starts with no armed session and shares the walk tracker's store |
| AlarmHandler.AlarmHandler.HandleArm | src/hooks/useAlarmHandler.ts:160-207 | the walk is reset and the scheduler takes the `scheduleAlarm` step; a failed arm leaves the armed session and the store as they were; a successful one arms the session from the target and overwrites the day's record only in alarm mode |
| AlarmHandler.AlarmHandler.HandleAlarmStop | src/hooks/useAlarmHandler.ts:55-132 | every path clears the armed session; the store changes as the chosen path says, the stop's upsert and the tracker's start each with its own storage outcome; the walk is cleared except on the walk path, where it becomes the tracker's start state |
| AlarmHandler.AlarmHandler.HandleStopAlarm | src/hooks/useAlarmHandler.ts:150-157 | the scheduler is stopped, with its state and effects as `stopAlarm` gives them, then the stop is handled; the armed session, the store and the walk end as after `handleAlarmStop` |
| AlarmHandler.StopRoundTripsAreIndependent | src/hooks/useAlarmHandler.ts:98-126 | the stop patch and the tracker's failure record are separate round trips: either can be lost while the other is written |
| WakeWalkSession.RemainingMs | src/hooks/useWakeWalkSession.ts:100 | the time left is never negative, is zero exactly when the deadline has been reached, and before it is the time to the deadline |
| WakeWalkSession.CheckVerdict | src/hooks/useWakeWalkSession.ts:113-123 | a check succeeds iff the goal is reached, fails iff it is not and the deadline has passed, and keeps polling iff neither holds |
| WakeWalkSession.FinalPatch | src/hooks/useWakeWalkSession.ts:60-67 | the final upsert sets the step count, the outcome and `achievedAt` (null without a time) and no other field |
| WakeWalkSession.CheckStep | src/hooks/useWakeWalkSession.ts:87-124 | a check with no active walk does nothing; otherwise success finalizes with the check time, a passed deadline finalizes with no time, and otherwise the tracking session is shown and the next check is due 15 s later; a next check is due exactly when nothing is written |
| WakeWalkSession.StartStep | src/hooks/useWakeWalkSession.ts:126-214 | without the pedometer module, availability or permission the day is written as a failure and nothing is tracked; with all three the walk becomes active with zero steps and its first check is due at once |
| WakeWalkSession.StalePollIsIgnored | src/hooks/useWakeWalkSession.ts:87-89 | a poll that fires after a reset changes nothing and writes nothing |
| WakeWalkSession.FailedReadCountsAsZero | src/hooks/useWakeWalkSession.ts:92-98 | a failed step read counts as zero steps, so with a positive goal it resolves only at the deadline, and then as a failure with zero steps |
| WakeWalkSession.GoalBeatsDeadline | src/hooks/useWakeWalkSession.ts:113-121 | a check that finds the goal reached records success even after the deadline |
| WakeWalkSession.DeadlineEndsTracking | src/hooks/useWakeWalkSession.ts:113-121 | every check at or after the deadline ends the walk and writes a result |
| WakeWalkSession.PollingUntilDeadline | src/hooks/useWakeWalkSession.ts:87-124 | with a step count that stays at zero, every check before the deadline keeps the walk active and sets the next check 15 s after the previous one |
| WakeWalkSession.WalkSessionTracker.constructor | src/hooks/useWakeWalkSession.ts:35-37 | a new instance has no session, no timer and no active walk |
| WakeWalkSession.WalkSessionTracker.ClearTimer | src/hooks/useWakeWalkSession.ts:39-44 | only the pending check is dropped |
| WakeWalkSession.WalkSessionTracker.ResetSession | src/hooks/useWakeWalkSession.ts:46-50 | the session, the timer and the active walk are all cleared |
| WakeWalkSession.WalkSessionTracker.FinalizeSession | src/hooks/useWakeWalkSession.ts:52-85 | the state and the store are those of the finalize step: the result upserted, then everything cleared |
| WakeWalkSession.WalkSessionTracker.RunCheck | src/hooks/useWakeWalkSession.ts:87-124 | the state and the store are those of `CheckStep` |
| WakeWalkSession.WalkSessionTracker.StartTracking | src/hooks/useWakeWalkSession.ts:126-214 | the state and the store are those of `StartStep` |
| GenerateIcons.Capitalize | scripts/generate-icons.js:19 | a word keeps its length and its tail; only its first character is upper-cased |
| GenerateIcons.PascalScan | scripts/generate-icons.js:16-22 | the character-by-character reading of the name leaves no '-' |
| GenerateIcons.PascalWordsAreScan | scripts/generate-icons.js:17-20 | splitting on '-', capitalising each piece and joining is the same as dropping every '-' and upper-casing the character that starts each segment |
| GenerateIcons.PascalCaseOfFile | scripts/generate-icons.js:16-22 | a component name is that scan with its first ".svg" removed, so it contains no '-' |
| GenerateIcons.RemoveExtension | scripts/generate-icons.js:21 | when the name has no other '.', removing ".svg" removes exactly the extension |
| GenerateIcons.ScanTwoSegments | scripts/generate-icons.js:17-20 | two non-empty segments joined by '-' come out as the two segments capitalised and concatenated |
| GenerateIcons.PascalCaseExample | scripts/generate-icons.js:16-22 | "wake-up.svg" becomes "WakeUp" |
| GenerateIcons.CreateComponentContent | scripts/generate-icons.js:25-100 | the component has the default view box '0 0 24 24' and size 24 by 24 where nothing matches, the imports for the tag kinds found, and the paths, then the rects, then the circles, in file order |
| GenerateIcons.AppendPaths | scripts/generate-icons.js:44-49 | the loop appends one path for each tag with a `d`, in order |
| GenerateIcons.AppendRects | scripts/generate-icons.js:52-61 | the loop appends one rect for each tag with x, y, width and height, in order |
| GenerateIcons.AppendCircles | scripts/generate-icons.js:64-72 | the loop appends one circle for each tag with cx, cy and r, in order |
| GenerateIcons.ImportsFollowTags | scripts/generate-icons.js:75-78 | the imports start with 'Svg' and name Path, Rect or Circle iff a tag of that kind was found |
| GenerateIcons.MissingAttributesDefault | scripts/generate-icons.js:27-34 | without a view box, width or height attribute the defaults are '0 0 24 24', 24 and 24 |
| GenerateIcons.RectElementsAreCompleteTags | scripts/generate-icons.js:52-61 | every rect drawn comes from a tag that has all four attributes; with every tag complete there is one rect per tag, and with none complete there are none |
| GenerateIcons.CircleElementsAreCompleteTags | scripts/generate-icons.js:64-72 | every circle drawn comes from a tag with cx, cy and r; one per tag when all are complete, none when none are |
| GenerateIcons.PathElementsAreTagsWithData | scripts/generate-icons.js:44-49 | every path drawn comes from a tag with a `d`, and there is one per tag when all have one |
| GenerateIcons.SvgFiles | scripts/generate-icons.js:103 | a file is kept iff its name ends in ".svg", and the kept names stay in directory order (a subsequence of the listing) |
| GenerateIcons.GenerateIndex | scripts/generate-icons.js:103-121 | there is one component name per SVG file, in order, each the file's PascalCase name; one export line per name; the index is those lines joined |
| GenerateIcons.IndexHasOneLinePerFile | scripts/generate-icons.js:121 | the index ends with a newline, and split into lines it is exactly the export lines followed by the empty piece after the last newline |

## Left out

- Snooze (`handleSnoozeAlarm`, `snoozeAlarm`, `remainingSnoozes` in `src/hooks/useAlarmHandler.ts`): the scheduler these call does not define them, so there is no behaviour to model beyond a call that fails.
- Concurrency: handlers that interleave at their `await` points are not modelled. Each handler is one atomic step. In particular, a poll already past its `activeRef` check when `resetSession` runs is not modelled, and neither are `scheduleAlarm` calls that overlap.
- Timers: `setTimeout` is the due time `nextCheckAt`. The caller runs the check when it is due; no clock advances by itself.
- I/O: AsyncStorage, `JSON.parse`/`JSON.stringify` as text, the notification service, the native alarm module, expo-haptics and the pedometer are parameters or effect-log entries. `ensureNotificationSetup`'s category registration is not modelled; only whether it rejects is.
- Alerts, modals, `console` logging and all rendering (markup, styles, animation) are not modelled.
- `ALARM_CHANNEL` is imported by `useAlarmScheduler.ts` but not defined in `src/utils/notifications.ts`. The Android trigger is modelled only as a flag saying that a channel is requested.
- DailyOutcomes: timestamps are stored as instants, not as their `toISOString` text. `Time.IsoString` models the text without parsing it back.
- Time: instants are on a zone-free local clock. Time zones, daylight saving, and `toISOString` reading the clock as UTC are not modelled. Invalid dates (`NaN` times) do not occur in the model.
- Streaks: records are keyed by day numbers, not date-key strings. `Time.DateKeyIdentifiesDay` shows the two are interchangeable for non-negative years. The string sort of four-digit-year keys is modelled as numeric order, and `Object.keys` as a list without duplicates.
- Sounds.ParseDecimal and Strings.ParseHex: `parseInt` skipping leading white space and reading a sign is not modelled, because the inputs are id pieces and colour substrings that have neither.
- DailyOutcomes: a record field holding JavaScript `undefined` is modelled as absent; no patch the hooks write sets a field to `undefined`.
- DailyOutcomes.Stored: `readMap` accepts any parsed value whose `typeof` is `object`, including an array (which `JSON.stringify` writes back without the new key) and entries that are not outcome records; the model's `Records` holds only a map of outcome records, so neither case is modelled.
- Sounds.Trim: only ASCII white space (space, tab, line feed, carriage return, vertical tab, form feed) is stripped; `trim()` also strips the other Unicode white space and line terminators, which the ASCII sound ids do not contain.
- Strings.ToLower and Strings.ToUpper map ASCII letters only; Unicode case mapping is not modelled.
- Sounds.TitleCase: its contract states only that the length is kept; `Sounds.TitleCaseIdempotent` and the display-name lemmas state what it does to the concrete names.
- ScrollPicker.Picker.HandleScroll, ScrollPicker.Picker.HandleMomentumScrollEnd, ScrollPicker.ScrollStep, ScrollPicker.MomentumEndStep, ScrollPicker.IndexFromOffset and ScrollPicker.AnimatedScrollSuppressesOnce require a non-zero `itemHeight`: a zero height divides by zero (`NaN` or `Infinity` rows) in the source, which is not modelled. Offsets are reals, not IEEE doubles.
- GenerateIcons: the regular-expression matches are inputs (the attributes each tag yields), not a regex engine. The component is modelled as a record of name, imports, defaults and elements, not as the generated TypeScript text. Reading and writing files is not modelled.
- ContributionGraph: the window width, cell size and gap enter only through `maxCols`. `ContributionGraph.Grid` computes each date's cell before the pushes, not inside them, which gives the same cells.
- AsyncStorageState: an absent validator (the optional `validate` parameter) is not modelled; every context in the app passes one.
- AlarmScheduler.ScheduleStep: `startNativeAlarm`'s `soundEnabled` argument, which the hook never passes, is not part of the effect.
- An empty notification id returned by the notification service counts as "no pending notification", as `!id` does; it is then never cancelled.

## Findings

| source | as written | input that shows it | evidently intended | confidence | as-written member | corrected member |
|---|---|---|---|---|---|---|
| src/hooks/useCalendarData.ts:29-30 | each month bucket is built as `new Date()` with `setMonth(getMonth() - (11 - m))`; that keeps today's day of the month, so when the target month is shorter the date rolls into the next month | today is 31 March 2025: bucket 10 (one month back) asks for 31 February, which becomes 3 March, so buckets 10 and 11 are both March 2025 and February is missing | twelve consecutive months ending with the current one | not executed | CalendarData.SetMonthBack, CalendarData.SetMonthBackRepeatsMarch | CalendarData.BucketsAreConsecutive, CalendarData.Calendar.BuildCalendar |
