# Expense ledger with charts — a Dafny model of its data pipeline

The ledger is a single-page expense tracker. It keeps a list of entries
`{id, amount, category, date, note}` and a currency setting, and redraws the
whole page after every change. Each redraw (`renderAll`) does the following:

- sorts a copy of the entries newest first;
- shows the entries that pass the category/date filters;
- shows the grand total and the total of the current calendar month;
- draws a pie of per-category sums;
- draws a bar chart of the last six months.

The form adds or edits an entry. A list button deletes one, and another loads one into the form.

This project models the pure logic of that pipeline in Dafny and proves what
each step promises. It does not model the page, the storage or the clock.

Modelling choices:

- **Amounts are whole cents** (`int`). The source keeps JavaScript floats.
  Cents make `toFixed(2)` exact and the sums associative.
- **Dates are calendar dates** `Date(year, month, day)`.
  - The instant `new Date(date)` is `StartOfDay`, an order-preserving day
    number times 86 400 000 ms.
  - `setHours(23, 59, 59, 999)` is written out as `SetHours`.
  - So the inclusive upper bound of the date filter is proved, not assumed.
- **The months of the bar chart** are `YearMonth(year, month)`.
  - `new Date(y, m - i, 1)` with a negative month rolls back into the previous
    year. It is modelled as month arithmetic on `year * 12 + month - 1`
    (`AddMonths`).
- **Angles of the pie are in turns**, the source's radians divided by 2π.
  - The start `-π/2` becomes `-1/4`.
  - "more than π" becomes "more than 1/2".
  - Sines and cosines are left to the renderer.
- **The current moment** is a parameter (`now: YearMonth`). `renderTotals`
  and `drawBar` each read the clock, so `RenderAll` takes the month each of
  them sees.
- **The fresh id** that `uid()` makes is a parameter of `Submit`. Its
  precondition says no entry carries it.
- **`Array.prototype.sort`** is stable. It is modelled as a stable insertion sort.
  - `SortNewestFirst`'s contract says the copy is newest first and a
    permutation; the lemma `SortIsStable` adds that it is stable.

Modules, one per file: `Calendar`, `Optional`/`Seqs`, `Entries`, `Text` (`trim`),
`Store` (the form and list buttons), `Filtering`, `Ordering`, `Totals`,
`CategoryBreakdown`, `MonthlyTrend`, `PieLayout`, `BarLayout`, `Currency`
and `Render` (`renderAll`, tying them together).

## Model

| member | source | states |
|---|---|---|
| Store.Submit | script.js:85-109 | the form is refused exactly when the amount is zero or NaN, the category is empty or the date is empty; an add appends one entry carrying the fresh id and the trimmed note after the unchanged list; an edit is `Edit` with the trimmed note |
| Store.Edit | script.js:95-98 | the first entry with the id gets the new amount, category, date and note and keeps its id; every other entry is unchanged; an id nobody carries changes nothing; length and ids are kept |
| Store.FindIndex | script.js:95 | the first position whose entry has the id, with none before it carrying the id; -1 exactly when no entry carries it |
| Store.Delete | script.js:184 | afterwards no entry carries the id; what is left is a subsequence of the list; every entry with another id is kept as often as it occurred |
| Store.StartEdit | script.js:192-202 | nothing is loaded exactly when no entry has the id; otherwise the form holds the first such entry's fields |
| Store.RejectedLeavesListUnchanged | script.js:91 | an incomplete form leaves the list as it was |
| Store.DeleteAbsentIsNoOp | script.js:184 | deleting an id that no entry carries changes nothing |
| Store.DeleteIdempotent | script.js:184 | deleting twice is deleting once |
| Store.DeleteRemovesOne | script.js:184 | with unique ids, deleting a present id shortens the list by exactly one |
| Store.AddThenDeleteRestores | script.js:102-104 | adding an entry and then deleting its id gives back the original list |
| Store.SubmitKeepsIdsUnique | script.js:92-105 | if ids are unique before a submit, they stay unique after it |
| Store.SaveUnchangedEditIsNoOp | script.js:85-109 | loading an entry into the form with `startEdit` (script.js:192-202) and saving it through the submit handler's edit branch unchanged leaves the list as it was, when its fields pass the guard and its note is trimmed |
| Store.SubmitTrimsNotes | script.js:90 | every note a submit stores is trimmed |
| Text.Trim | script.js:90 | the result is the input with a run of whitespace cut from each end, and has none left at either end; it is empty exactly when the input is all whitespace |
| Text.TrimKeepsTrimmed | script.js:90 | trimming gives back the input exactly when the input has no leading or trailing whitespace |
| Calendar.EndOfDayIsLastInstant | script.js:155-156 | `setHours(23,59,59,999)` gives the last millisecond of the day: one millisecond before the next day starts |
| Calendar.InstantOrder | script.js:148-157 | comparing the instants is comparing the calendar dates: `d < from` iff `d` is before `from`, and `d <= end of to` iff `d` is on or before `to` |
| Calendar.AddMonths | script.js:297 | `new Date(y, m - i, 1)` is a valid month exactly `i` months earlier, rolling over year boundaries |
| Calendar.AddMonthsStep | script.js:296-298 | consecutive offsets give calendar-consecutive months, December followed by the next January |
| Filtering.ApplyFilters | script.js:144-160 | no filter returns the input itself; a filter keeps, in their order, exactly the entries that pass it, each as often as it occurred |
| Filtering.Passes | script.js:146-158 | the filter's test on one entry; `PassesInCalendarTerms` states it in calendar terms |
| Filtering.PassesInCalendarTerms | script.js:146-157 | an entry passes iff its category matches a set category and `from <= date <= to`, with both ends inclusive |
| Ordering.SortNewestFirst | script.js:137 | the sorted copy is newest first and is a permutation of the entries |
| Ordering.SortIsStable | script.js:137 | entries of the same day keep their relative order in the sorted copy |
| Ordering.SortKeepsTotal | script.js:137 | sorting leaves the grand total unchanged |
| Ordering.FilterKeepsNewestFirst | script.js:137-138 | filtering the sorted copy keeps it newest first |
| Entries.Total | script.js:206 | the reduce sum of the amounts; `TotalOfPermutation` states that order does not matter |
| Entries.TotalOfPermutation | script.js:206 | the grand total does not depend on the order of the entries |
| Entries.SumWhereIsTotalOfFilter | script.js:209-212 | a conditional reduce is the total of the entries that pass the test |
| Totals.MonthTotal | script.js:208-213 | the this-month figure is the total of exactly the entries dated in the current year and month |
| Totals.MonthTotalOfOneMonth | script.js:208-213 | when every entry is in the current month, the month figure equals the grand total |
| Totals.MonthTotalIgnoresOtherMonths | script.js:208-213 | an entry from another month does not change the month figure |
| Totals.MonthTotalOfPermutation | script.js:208-213 | the month figure does not depend on the order of the entries |
| CategoryBreakdown.ByCategory | script.js:225-231 | the category map as slices; `ByCategorySpec` and `SlicesSumToTotal` state its contents |
| CategoryBreakdown.ByCategorySpec | script.js:225-231 | there is one slice per category that occurs and none for any other; each category appears once; slices are in the order categories first occur; each slice holds its category's sum |
| CategoryBreakdown.SlicesSumToTotal | script.js:225-235 | the slice values add up to the grand total |
| MonthlyTrend.EmptyWindow | script.js:296-300 | the six empty month buckets; `WindowShape` states their months |
| MonthlyTrend.MonthlyBuckets | script.js:301-306 | the buckets after the `forEach`; `MonthlyBucketsSpec` states their totals |
| MonthlyTrend.WindowShape | script.js:296-300 | the window has six buckets, oldest first, each the calendar successor of the previous, ending at the current month; a month is in it exactly when it is one of the last six |
| MonthlyTrend.MonthlyBucketsSpec | script.js:301-306 | each bucket holds the total of the entries dated in its month, in any entry order |
| MonthlyTrend.LastBucketIsMonthTotal | script.js:296-306 | the last bar is the current month and holds the this-month figure |
| MonthlyTrend.OutOfWindowEntryIgnored | script.js:301-306 | an entry dated outside the six months changes no bucket |
| PieLayout.Divisor | script.js:235 | the pie's divisor in cents: the slice sum, or one currency unit when that sum is zero; `ZeroSumWedgeSpans` and `LayoutSpec` state its effect |
| PieLayout.LayWedges | script.js:242-275 | the wedge loop; `LayWedgesSpec` states its wedges |
| PieLayout.Layout | script.js:233-289 | `drawPie`; `LayoutSpec` states the placeholder case and the full turn |
| PieLayout.RoundToUnits | script.js:272 | the label value is the whole number of units nearest to the value, with halves rounding up |
| PieLayout.LayWedgesSpec | script.js:242-275 | there is one wedge per slice, in order; each starts where the previous one ended; each spans its share of the divisor; the label sits at the mid-angle and carries the slice value rounded by `RoundToUnits`; the arc is large exactly when the wedge exceeds half a turn |
| PieLayout.LayoutSpec | script.js:233-289 | the "No data" placeholder appears exactly when there are no slices; otherwise wedges start at 12 o'clock, chain, and close the full turn when the sum is nonzero |
| PieLayout.ZeroSumWedgeSpans | script.js:235-245 | when the slice values sum to zero (the divisor then falls back to one unit), each wedge spans its value in whole currency units |
| PieLayout.ZeroTotalGivesEmptyWedges | script.js:235-245 | when no value is negative and the sum is zero, every wedge is empty (the divisor falls back to one unit) |
| BarLayout.MaxWithFloor | script.js:311 | the scale is at least the floor and every total, and equals the floor or one of the totals |
| BarLayout.BarAt | script.js:314-319 | one bar; `BarGeometry`, `BarInsidePlot`, `BarsInsideAndApart`, `BarHeightBounds`, `BarHeightsProportional` and `TallestBarFillsPlot` state its geometry |
| BarLayout.BarGeometry | script.js:315-319 | each bar is 0.6 of its band wide and centred in it, with its label at its centre, and hangs from `h - pad - height` |
| BarLayout.BarInsidePlot | script.js:315-317 | every bar, a lone one included, lies between the left and the right padding |
| BarLayout.BarsInsideAndApart | script.js:315-317 | bars lie within the padding and each ends before the next begins |
| BarLayout.BarHeightsProportional | script.js:311-318 | a bar's height is to its total as the plot height `h - pad * 2` is to the scale `Math.max(...totals, 10)`; so any two heights stand in the ratio of their totals, and, when the plot height is not negative, a larger total never gets a shorter bar |
| BarLayout.BarHeightBounds | script.js:311-319 | with no negative totals, each height lies between zero and the plot height, and the bar stays inside the plot |
| BarLayout.TallestBarFillsPlot | script.js:311-318 | a largest total at or above the floor gets the full plot height |
| Currency.Symbol | script.js:70-73 | INR gets `₹`, USD `$` and EUR `€`; every other code gets no symbol |
| Currency.ToFixed2 | script.js:70-73 | `toFixed(2)` on cents; `ToFixed2RoundTrip` and `ParseFixed2Canonical` state that it is the exact inverse of the parser |
| Currency.FormatCurrency | script.js:67-74 | `formatCurrency`; `FormatRoundTrip` and the three examples state what it shows |
| Currency.NumeralRoundTrip | script.js:70-73 | every numeral without a leading zero is the numeral of the number it denotes |
| Currency.ToFixed2RoundTrip | script.js:70-73 | the two-decimal text of an amount reads back as that amount, so distinct amounts never show alike |
| Currency.ParseFixed2Canonical | script.js:70-73 | every string read as an amount is exactly the text written for that amount |
| Currency.FormatRoundTrip | script.js:67-74 | what `formatCurrency` shows reads back, under the same setting, as `Number(amount)`, with NaN read as zero |
| Currency.RupeeExample | script.js:67-74 | an empty setting shows the rupee sign, and 123 450 cents show as `1234.50` |
| Currency.NegativeDollarExample | script.js:67-74 | a negative dollar amount shows as `$-2.50`: the sign comes after the symbol |
| Currency.NaNExample | script.js:67-74 | an unknown code gets no symbol, and a NaN amount shows as `0.00` |
| Render.RenderAll | script.js:135-141 | one redraw; `ListAndTotals`, `PieMatchesTotal`, `TrendMatchesMonthTotal` and `TotalsTextReadsBack` state what it shows |
| Render.ListAndTotals | script.js:135-141 | the list is newest first and holds exactly the passing entries (all of them when there is no filter); the totals are the ledger's own |
| Render.PieMatchesTotal | script.js:135-141 | the pie shows "No data" exactly when the ledger is empty; otherwise its slices sum to the grand total and close the circle when that total is nonzero |
| Render.TrendMatchesMonthTotal | script.js:135-141 | there are six buckets and six bars; the last bucket is the month `drawBar` sees, holding the ledger's total for it; when `renderTotals` saw the same month, that is the this-month figure |
| Render.TotalsTextReadsBack | script.js:205-215 | both shown figures read back as the grand total and the month total |

## Left out

- Storage (`localStorage`, `loadState`, `saveState`, the JSON round trip) is
  left out. The state is a value passed in.
- The DOM and SVG are left out. This covers element creation, template
  cloning, `innerHTML`, attributes, colours, category icons, the timed
  fade-in and bar-growth animations (the bar is modelled at its final
  height), `confirm` and `alert`.
- Each clock reading is a parameter (`totalsNow`, `barsNow`). `uid()` is a parameter (`freshId`).
  `toLocaleDateString` and the short month labels are left out.
- Sine and cosine of the pie's arc end points and label position are left
  out. The model stops at the angles, in turns.
- Timezones are ignored. The source parses `YYYY-MM-DD` as UTC midnight but
  reads `getMonth`, `getFullYear` and `setHours` in local time. The model
  uses one calendar for all of them.
- Dates that do not parse are outside the model: every entry and filter
  bound is a calendar date. The source keeps such entries in the list,
  because every comparison with NaN is false.
- Entries with a NaN amount are not modelled. The form refuses a NaN amount,
  so only a corrupted store could hold one.
- `Object.entries` lists integer-like keys (a category named `"12"`) before
  the others, whatever their insertion order. The model assumes every
  category is an ordinary string key.
- A category named after an `Object.prototype` property (`__proto__`,
  `constructor`, `toString`, …) is not modelled: `map[c] || 0` would read the
  inherited value, and `+` would then concatenate strings.
- `toFixed(2)` switches to exponent notation at 10^21 and above. The model
  always writes the plain digits.
- Floating-point rounding is not modelled. Amounts are exact cents and the
  pie and bar geometry is exact real arithmetic.
- `addDemoData`, the theme toggle, the currency selector's event handler
  and the clear and reset-filter buttons are left out. They only set
  fields or call the modelled operations.
- Editing an id that no entry carries is a silent no-op, as in the code;
  there is no error path to model.
- Calendar.DayNumber is an order-preserving day index
  (`year * 372 + (month - 1) * 31 + day - 1`), not the number of days
  since the epoch. Only the order of the instants and the length of a
  day matter to the filter and the sort.
- PieLayout.LayWedgesSpec states the angles and the label's rounded value.
  The text `category (value)` itself is not built, because it is only DOM text.
