# Vampire-loss rest periods

A model of the rest-period engine of VisibleTesla's vampire-loss statistics
(`VampireStats.java`). The engine scans the rows of the statistics store in
time order. It finds the stretches during which the car stood still and did
not charge ("rests"), drops those of sixty minutes or less, splits every kept
rest at local midnight with the range interpolated at each cut, and totals
the rest time and the range lost.

Modules, one per file:

- `Wrappers` (`wrappers.dfy`): `Option`, for the source's nullable references and missing row entries.
- `Clock` (`clock.dfy`): the local calendar as a day index `Day(t, tz) = (t + tz) / 86_400_000`, for a fixed zone offset `tz`, and `EndOfDay`, 23:59:59 of a day with the millisecond field of the given instant kept, as `setToEndOfDay` leaves it.
- `Rests` (`rests.dfy`): the `Rest` record with `Loss` and `AvgLoss`, `Hours`, the totals and the totals loop, and the overall average.
- `DaySplitter` (`day_splitter.dfy`): `Split`, the value that `addPeriod` appends, and its properties. These are the chain of pieces, the range at each cut interpolated in proportion to time, conservation of loss, one day per piece and ranges that stay in bounds.
- `RestScanner` (`rest_scanner.dfy`): samples, the per-sample `Step` of `handleStat` on values, the fold `Scan`, the row window of the scan loop, and the properties of the scan.
- `VampireLoss` (`vampire_loss.dfy`): the class `VampireStats`. Its field `restInProgress` is the accumulator and its field `restPeriods` is the output list. `AddPeriod`, `HandleStat`, `FlushRest` (the close of the open rest after the rows) and `ShowStats` update them in place and are proved against the functions above.
- `Scenarios` (`scenarios.dfy`): worked examples. They cover the 90-minute rest, the strict sixty-minute threshold, an open rest kept at the end of the rows, and a piece that starts after its own end.

Two behaviours of the code are worth knowing before reading the contracts:

- A split piece can start after its own end. This happens when a rest ends within the first second after midnight, at a smaller millisecond than it started with: the remainder starts at 23:59:59 plus one second plus the start's millisecond field (`VampireStats.java:126-127`). The model keeps this, and `Scenarios.PieceMayStartAfterItsEnd` exhibits it. Reported periods therefore each end before the next starts, but their start times need not increase.
- With no rest time at all, the overall average divides zero by zero (`VampireStats.java:99-101`) and is NaN. `Rests.OverallAvgLoss` returns `None` there.

## Model

| member | source | states |
|---|---|---|
| `Clock.EndOfDay` | src/org/noroomattheinn/visibletesla/VampireStats.java:134-139 | the result is on the same local day as `t`, at 23:59:59 with `t`'s millisecond field, no earlier than `t`; one second later is the next day |
| `Rests.Hours` | src/org/noroomattheinn/visibletesla/VampireStats.java:109 | hours times 3,600,000 gives back the milliseconds; a duration over the minimum rest period is more than one hour; zero hours only for zero milliseconds |
| `Rests.Rest.Loss` | src/org/noroomattheinn/visibletesla/VampireStats.java:234 | the loss is the range given up between start and end; it is non-negative exactly when the range did not rise |
| `Rests.Rest.AvgLoss` | src/org/noroomattheinn/visibletesla/VampireStats.java:235 | for a non-zero duration, the average times the hours gives back the loss; for a positive duration it has the sign of the loss |
| `Rests.Totals` | src/org/noroomattheinn/visibletesla/VampireStats.java:81-95 | the loop returns the sum of the durations and the sum of the losses of all periods |
| `Rests.OverallAvgLoss` | src/org/noroomattheinn/visibletesla/VampireStats.java:96-101 | "no data" exactly when the total rest time is zero; otherwise the average times the total hours gives back the total loss |
| `DaySplitter.Split` | src/org/noroomattheinn/visibletesla/VampireStats.java:111-132 | one piece per local day spanned; a same-day rest comes back unchanged; the first piece keeps the start time and range and ends at 23:59:59 of the first day; the last keeps the end time and range |
| `DaySplitter.FirstDay` | src/org/noroomattheinn/visibletesla/VampireStats.java:117-124 | the first piece keeps the rest's start time and start range and ends at 23:59:59 of the first day, before the rest ends, within one day; its loss is the rest's loss scaled by its share of the rest's duration |
| `DaySplitter.Remainder` | src/org/noroomattheinn/visibletesla/VampireStats.java:126-127 | the remainder starts one second after the first piece ends, on the next local day, with the range the first piece ends with, and keeps the rest's end time and end range |
| `DaySplitter.BoundaryRange` | src/org/noroomattheinn/visibletesla/VampireStats.java:119-121 | the range given up by instant `t` is the rest's whole loss times the share of its duration elapsed by `t` |
| `DaySplitter.SplitChain` | src/org/noroomattheinn/visibletesla/VampireStats.java:119-128 | each piece starts 1000 ms after the previous one ends, with the previous piece's end range; every piece but the last runs forwards to 23:59:59 of its own day |
| `DaySplitter.SplitInterpolates` | src/org/noroomattheinn/visibletesla/VampireStats.java:117-128 | every piece loses, of the range still to be lost from its start to the end of the rest, the share that its own duration is of the time left; with the chain this fixes each cut's range |
| `DaySplitter.SplitPiecesWithinOneDay` | src/org/noroomattheinn/visibletesla/VampireStats.java:113-130 | every piece starts and ends on one local day, so splitting a piece again gives back just that piece |
| `DaySplitter.SplitConserves` | src/org/noroomattheinn/visibletesla/VampireStats.java:119-128 | the pieces' losses add up to the loss of the whole rest; their durations add up to its duration less one second per cut |
| `DaySplitter.BoundaryRangeBetween` | src/org/noroomattheinn/visibletesla/VampireStats.java:119-121 | the range interpolated at an instant inside the rest lies between its start and end ranges |
| `DaySplitter.SplitRangesBetween` | src/org/noroomattheinn/visibletesla/VampireStats.java:117-130 | every range of every piece lies between the rest's start and end ranges; if the rest lost range, no piece gained any |
| `DaySplitter.SplitAll` | src/org/noroomattheinn/visibletesla/VampireStats.java:60-77 | the periods list as built by the scan: the pieces of every rest in turn, at least one per rest |
| `DaySplitter.SplitAllConserves` | src/org/noroomattheinn/visibletesla/VampireStats.java:111-132 | splitting a list of rests keeps the total loss, and loses one second of rest time per piece beyond the first of each rest |
| `DaySplitter.SplitAllWithinOneDay` | src/org/noroomattheinn/visibletesla/VampireStats.java:111-132 | every piece of every rest lies within one local day |
| `DaySplitter.SplitAllChronological` | src/org/noroomattheinn/visibletesla/VampireStats.java:111-132 | if each rest ends before the next starts, each piece ends before the next starts, and the first piece starts when the first rest does |
| `RestScanner.Resting` | src/org/noroomattheinn/visibletesla/VampireStats.java:146-149 | stationary and not charging, a missing voltage counting as zero |
| `RestScanner.Kept` | src/org/noroomattheinn/visibletesla/VampireStats.java:159-161 | a closed rest is reported exactly when it lasted strictly more than 60 minutes, and then only that rest |
| `RestScanner.Step` | src/org/noroomattheinn/visibletesla/VampireStats.java:141-166 | one sample never changes the rests already closed and closes at most one, only when moving or charging, which leaves no rest open; an open rest keeps its start time and start range; a new one opens at the sample |
| `RestScanner.Scan` | src/org/noroomattheinn/visibletesla/VampireStats.java:67-72 | the scan loop as a fold of `Step` over the rows it handles; each row closes at most one rest |
| `RestScanner.Window` | src/org/noroomattheinn/visibletesla/VampireStats.java:67-72 | every row the loop hands on is a row of the store with a timestamp in [startTime, endTime] |
| `RestScanner.WindowSelects` | src/org/noroomattheinn/visibletesla/VampireStats.java:67-72 | on rows in increasing time order, the loop hands on exactly the rows in [startTime, endTime], still in order |
| `RestScanner.Found` | src/org/noroomattheinn/visibletesla/VampireStats.java:73-77 | every rest found, including the one flushed at the end of the rows, lasted strictly more than 60 minutes |
| `RestScanner.ScanKeepsOnlyLongRests` | src/org/noroomattheinn/visibletesla/VampireStats.java:158-164 | a rest closed by a moving or charging sample is kept only if it lasted strictly more than 60 minutes |
| `RestScanner.StepOrdered` | src/org/noroomattheinn/visibletesla/VampireStats.java:141-166 | a sample later than all before it keeps the closed rests in time order and ahead of the open rest, which runs forwards |
| `RestScanner.ScanChronological` | src/org/noroomattheinn/visibletesla/VampireStats.java:141-166 | on samples in increasing time order, the rests found are in time order, each ending before the next starts |
| `RestScanner.DriveSeparatesRests` | src/org/noroomattheinn/visibletesla/VampireStats.java:158-164 | a moving or charging sample ends the open rest: the rests found around it are those found before it followed by those found after it |
| `VampireLoss.VampireStats.constructor` | src/org/noroomattheinn/visibletesla/VampireStats.java:43-53 | a new engine has no rest in progress and no periods |
| `VampireLoss.VampireStats.AddPeriod` | src/org/noroomattheinn/visibletesla/VampireStats.java:111-132 | appends exactly the day pieces of the rest to the periods, and changes nothing else |
| `VampireLoss.VampireStats.HandleStat` | src/org/noroomattheinn/visibletesla/VampireStats.java:141-166 | no speed, or resting with no range: nothing changes; resting with a range: opens a rest at the sample, or moves only the end time and end range of the open one; moving or charging: no rest is open afterwards, and the old one's pieces are appended only if it lasted more than 60 minutes; in every case the new state is one `Step` of the scan, with the rests it closes split and appended |
| `VampireLoss.VampireStats.FlushRest` | src/org/noroomattheinn/visibletesla/VampireStats.java:73-77 | after the rows, the open rest's pieces are appended only if it lasted more than 60 minutes, and no rest is open afterwards |
| `VampireLoss.VampireStats.ShowStats` | src/org/noroomattheinn/visibletesla/VampireStats.java:55-102 | afterwards no rest is open; the periods are the day pieces of the rests found in the rows between startTime and endTime; the totals are their sums; the overall average is "no data" exactly when the rest time is zero |
| `VampireLoss.RestPeriods` | src/org/noroomattheinn/visibletesla/VampireStats.java:60-77 | the reported periods are the pieces of the rests found in the rows between startTime and endTime: at least one per rest, each within one local day |
| `VampireLoss.RestPeriodsChronological` | src/org/noroomattheinn/visibletesla/VampireStats.java:67-77 | on rows in increasing time order, each reported period ends before the next one starts |
| `VampireLoss.RestPeriodsTotals` | src/org/noroomattheinn/visibletesla/VampireStats.java:81-95 | the total loss reported equals the total loss of the rests found before splitting; the total rest time is theirs less one second per cut |
| `Scenarios.ParkThenDrive` | src/org/noroomattheinn/visibletesla/VampireStats.java:141-166 | parked at two instants then driving, all in the window: the one rest between the parked samples is found exactly when it lasted more than 60 minutes |
| `Scenarios.NinetyMinuteRest` | src/org/noroomattheinn/visibletesla/VampireStats.java:141-166 | parked at 0 with range 200 and at 90 min with range 190, then driving: exactly the rest [0, 90 min, 200, 190] |
| `Scenarios.NinetyMinuteAverage` | src/org/noroomattheinn/visibletesla/VampireStats.java:234-235 | that rest averages 20/3 range lost per hour |
| `Scenarios.StrictMinimum` | src/org/noroomattheinn/visibletesla/VampireStats.java:159-161 | a rest of exactly 60 minutes is dropped; one of 61 minutes is kept |
| `Scenarios.OpenRestKeptAtEnd` | src/org/noroomattheinn/visibletesla/VampireStats.java:73-76 | rows ending while parked still yield the open rest if it lasted more than 60 minutes |
| `Scenarios.PieceMayStartAfterItsEnd` | src/org/noroomattheinn/visibletesla/VampireStats.java:126-127 | a rest ending at 00:00:00.200 that started at 10:00:00.500 gives a second piece starting at 00:00:00.500, after its end |

## Left out

- `getExportPeriod` and `genProps` (date-range dialog, first and last row of the store): `ShowStats` takes the rows and the selected `[startTime, endTime]` as parameters. A cancelled dialog, where the source returns early, is not modelled.
- `displayResults` and the report text built with `String.format`: presentation only. The values they show are the model's outputs.
- `dialogs/VampireLossResults.java`: chart and tooltip rendering, outside the engine.
- The statistics store is a sequence of rows with the three fields the engine reads. Any other entries of a row are not modelled.
- `Clock.Day`: days are compared by a day index for a fixed zone offset. The source compares only the day-of-month field in the default time zone. Two instants a whole number of months apart on the same day of the month, daylight-saving changes and zone changes are therefore not modelled.
- `DaySplitter.Split` and `VampireLoss.VampireStats.AddPeriod` require that the end is not on an earlier day than the start. The calls at `VampireStats.java:75` and `:161` pass rests of more than an hour. The recursive call at `:128` passes a remainder that starts on the day after the start day, which is never later than the end's day. With a day index a reversed rest would never reach its base case, whereas the source's day-of-month test eventually stops.
- `Rests.Rest.AvgLoss` requires a non-zero duration. For a zero duration the source yields an IEEE infinity or NaN.
- `Rests.OverallAvgLoss` returns `None` where the source yields NaN. The total rest time is zero only when there are no periods, because every kept rest lasts over an hour and loses at most one second per cut, so the total loss is then zero too.
- Doubles are modelled as exact reals, so rounding in the ratio, the interpolation and the sums is not modelled.
- 64-bit `long` overflow of timestamps and totals is not modelled, since epoch-millisecond values are far from the limit.
- `VampireLoss.VampireStats.ShowStats` requires that no rest is in progress on entry. The constructor and every earlier call leave it that way.
- The `restPeriods` list is a local of `showStats` that is passed to `handleStat` and `addPeriod`. Here it is a field of the class that `ShowStats` resets on entry.
- The source changes the open `Rest` object's end time and end range in place. Here the field holds a value that is replaced. In the same-day case `addPeriod` stores that very object in the list (`:130`), but `restInProgress` is set to null straight afterwards (`:77`, `:163`), so nothing changes the object again and no alias can observe the difference.
- The close of the open rest after the rows (`VampireStats.java:73-77`) is inline in `showStats`; here it is the method `FlushRest`, which `ShowStats` calls.
- The unused no-argument `Rest()` constructor is left out.
