# azurecost core, modelled in Dafny

`azurecost` is a small command-line tool. It asks the Azure Cost Management
service for the cost of a subscription, optionally narrowed to a resource
group. It fetches the total cost and the cost grouped by some dimensions, one
amount per day or per month. Then it prints a table with one row per group
and one column per period, sorted by the most recent period.

This project models the pure logic of that tool:

- `DateUtil.get_start_and_end`: the query window. It reaches back
  `30 * point` days (MONTHLY) or `point` days (DAILY) from "now", and under
  MONTHLY it snaps the start to day 1 of its month. Calendar arithmetic
  follows Python's proleptic Gregorian `datetime`.
- `Core.get_usage`: the scope string, the two query payloads, and the
  subscription lookup that precede the two cost queries.
- `Core.get_subscription_from_name`: first match by display name.
- `Core.convert_tabulate` up to the `tabulate` call:
  - parse each row's timestamp and label it by period
  - pivot the rows into key → (period → cost), in Python dict insertion order
  - stable-sort the pivot rows in descending order of their cost in the sort
    column

Modules:

| file | module | content |
|---|---|---|
| `wrappers.dfy` | `Wrappers` | `Option`, `Result` |
| `calendar.dfy` | `Calendar` | dates, `toordinal` / `fromordinal` and their inverse proofs |
| `timestamp.dfy` | `Timestamp` | `YYYY-MM-DDTHH:MM:SS` parsing and formatting, period labels |
| `date_util.dfy` | `DateUtil` | datetimes, `timedelta` subtraction, the query window |
| `ordered_map.dfy` | `OrderedMap` | insertion-ordered maps (Python `dict`), first-occurrence dedup |
| `pivot.dfy` | `Pivot` | rows to entries, the `defaultdict` pivot, its shape |
| `ranking.dfy` | `Ranking` | the stable descending sort and its uniqueness |
| `core.dfy` | `Core` | scope, payloads, subscription lookup, `get_usage`, `convert_tabulate` |

Inputs and outputs:

- The service's answers are inputs: the subscription list, the total rows and
  the grouped rows.
- A result row is positional, as `core.py` reads it: `result[0]` is the cost,
  `result[1]` is the timestamp, and `result[2]` is the group key (grouped rows
  only).
- Costs are integers, for example hundredths of the currency unit.
- The clock reading `now` is a parameter.

Python exceptions become `Err` values:

- `UnboundLocalError` for an unknown granularity becomes `Unsupported`.
- `OverflowError` from `timedelta` or from the subtraction becomes `Overflow`.
- `AttributeError` on a missing subscription becomes `SubscriptionNotFound`.
- `ValueError` from `strptime` becomes `BadTimestamp`.
- `IndexError` on `result[2]` becomes `MissingKeyColumn`.
- `IndexError` on `costs[0]` when there are no rows becomes `NoRows`.

## Model

| member | source | states |
|---|---|---|
| Core.Scope | src/azurecost/core.py:39-41 | the scope starts with `/subscriptions/`; without a resource group, the subscription id is the rest |
| Core.ScopeRoundTrip | src/azurecost/core.py:39-41 | for a subscription id without `/`, the scope reads back to that id, with `/resourceGroups/<rg>` present exactly when a resource group was given |
| Core.ParseScopeRoundTrip | src/azurecost/core.py:39-41 | every string that reads as a scope is the scope of what it reads to, so the scope form is unambiguous |
| Core.BasePayload | src/azurecost/core.py:43-54 | the base payload asks for `ActualCost` over a `Custom` timeframe equal to the window, at the given granularity, with the single aggregation `totalCost` = `Sum` of `PreTaxCost` and no grouping |
| Core.WithGrouping | src/azurecost/core.py:62-68 | the grouped payload keeps every base field; it has one `Dimension` clause per requested dimension, named in the same order |
| Core.UsagePayloads | src/azurecost/core.py:43-68 | both payloads ask for `ActualCost` over a `Custom` timeframe ending at `now`, at the given granularity, summing `PreTaxCost` as `totalCost`; the first is ungrouped, the second is grouped by exactly the requested dimensions |
| Core.FindSubscription | src/azurecost/core.py:75-79 | returns nothing exactly when no display name matches; otherwise returns the first subscription whose display name equals the argument |
| Core.GetUsage | src/azurecost/core.py:34-68 | fails with the window's own error (`Unsupported` or `Overflow`) exactly when the window fails, and with `SubscriptionNotFound` for the requested name exactly when the window succeeds but no subscription matches; on success it uses the scope of the first match, the base payload over the window, and that payload grouped by the dimensions |
| Core.PivotEntriesDefined | src/azurecost/core.py:85-93 | the pivot gets entries exactly when every timestamp parses and every grouped row has a third column |
| Core.EntryPlacement | src/azurecost/core.py:85-93 | every total row lands under `"total"` and every grouped row under its third column, each at its period label with its own cost, total rows first |
| Core.FirstErrorReported | src/azurecost/core.py:85-93 | a failure is the error of the first failing row, total rows before grouped rows |
| Core.ConvertTabulate | src/azurecost/core.py:81-109 | errors propagate; `NoRows` exactly when both row lists are empty; otherwise the sort column is the last period first seen for the first key, and the output is non-increasing in that column, a permutation of the pivot rows, and keeps pivot order among rows of equal cost |
| Core.SortColumnOfTotals | src/azurecost/core.py:101-102 | with at least one total row, the first key is `"total"`, so the sort column is the last period first seen under key `"total"` (the total rows and any grouped row keyed `"total"`) |
| Core.TotalRowInPivot | src/azurecost/core.py:85-99 | every total row appears in the `"total"` pivot row under its period label, with its own cost unless a later row has the same key and label |
| Core.GroupedRowInPivot | src/azurecost/core.py:90-99 | every grouped row appears in the pivot row of its third column under its period label, with its own cost unless a later row has the same key and label |
| Pivot.RowEntry | src/azurecost/core.py:85-93 | a row gives an entry exactly when its timestamp parses and, when grouped, it has a third column; otherwise the error is `BadTimestamp` for a stamp that does not parse and `MissingKeyColumn` for a parsed grouped row without a third column; the entry's key, period prefix and cost are as listed |
| Pivot.EntriesOf | src/azurecost/core.py:85-93 | a row list gives entries exactly when every row does, one per row in order; otherwise it gives the error of the first failing row |
| Pivot.Build | src/azurecost/core.py:82-93 | the `defaultdict` after all assignments lists each key once, and every key has a non-empty period map |
| Pivot.BuildShape | src/azurecost/core.py:82-93 | the dict's keys are the entry keys in order of first occurrence; under each key are its periods in order of first occurrence, each with the cost of the last entry for that key and period |
| Pivot.PivotShape | src/azurecost/core.py:95-99 | the pivot has exactly one row per distinct key, in order of first occurrence; each row's periods are exactly those seen for its key, each with its last cost |
| Pivot.PivotRows | src/azurecost/core.py:95-99 | one pivot row per dict key, keyed in first-occurrence order of the entry keys; each row's cells are a valid map over that key's periods in first-occurrence order |
| Pivot.EntryInPivot | src/azurecost/core.py:88-99 | every entry appears in the pivot row of its key under its period; its cost is the cell's value unless a later entry has the same key and period |
| Pivot.FirstPivotRow | src/azurecost/core.py:96-102 | the first pivot row carries the first entry's key and a non-empty list of periods, the periods seen for that key |
| Pivot.LastWriteWins | src/azurecost/core.py:88-93 | a (key, period) pair has no cost exactly when no entry has it; otherwise its cost is that of its last entry, so costs are replaced and not summed |
| OrderedMap.Put | src/azurecost/core.py:88-93 | a dict assignment keeps the map valid, updates the value, keeps an existing key's position and appends a new key |
| OrderedMap.Dedup | src/azurecost/core.py:96-98 | first-occurrence order has no repeats, has the same members, and starts with the first element |
| OrderedMap.DedupFirstOccurrence | src/azurecost/core.py:88-98 | the deduplicated list is ordered by each element's first position in the original list, as dict keys are ordered by first insertion |
| Ranking.SortValue | src/azurecost/core.py:107 | a row's sort value is its cell in the sort column, or 0 when the row has no such cell |
| Ranking.Insert | src/azurecost/core.py:105-109 | inserting a row into a non-increasing list keeps it non-increasing and adds exactly that row |
| Ranking.SortDesc | src/azurecost/core.py:105-109 | the sorted rows are non-increasing by sort value, where a missing cell counts as 0, and are a permutation of the input |
| Ranking.SortDescStable | src/azurecost/core.py:105-109 | for every cost, the rows with that cost appear in the same relative order before and after sorting |
| Ranking.StableArrangementUnique | src/azurecost/core.py:105-109 | two non-increasing lists that agree on the order of the rows of every cost are equal, so a stable descending sort has exactly one output |
| Timestamp.Parse | src/azurecost/core.py:86-91 | a string that parses has 19 characters, gives a valid timestamp, and formats back to itself with the separator written as `T` |
| Timestamp.ParseFormat | src/azurecost/core.py:86 | formatting a valid timestamp as `%Y-%m-%dT%H:%M:%S` gives a string that parses back to it, also with the separator in lower case |
| Timestamp.ParseExactlyFormatted | src/azurecost/core.py:86 | a string parses exactly when it is the formatting of a valid timestamp, with the separator `T` or `t` |
| Timestamp.PeriodLabel | src/azurecost/core.py:83-91 | the period label is a prefix of the formatted timestamp: 7 characters under MONTHLY, 10 otherwise |
| Timestamp.PeriodLabelIsPrefix | src/azurecost/core.py:83-86 | the period label of a parsed timestamp is its 7-character prefix under MONTHLY and its 10-character prefix under every other granularity |
| Calendar.Ordinal | src/azurecost/date_util.py:17 | a valid date's day number lies in 1..3652059 and within its year's range |
| Calendar.FromOrdinal | src/azurecost/date_util.py:17 | every day number in 1..3652059 is the day number of a valid date |
| Calendar.FromOrdinalOfOrdinal | src/azurecost/date_util.py:17 | day numbering is injective, so converting a date to its number and back gives the same date |
| DateUtil.SubtractDays | src/azurecost/date_util.py:17 | subtracting days succeeds exactly when the `timedelta` is in range and the result stays within years 1..9999; it moves the day number by exactly that many days and keeps the time of day |
| DateUtil.FirstOfMonth | src/azurecost/date_util.py:19 | `replace(day=1)` gives day 1 of the same year and month, `day - 1` days earlier, and keeps the time of day |
| DateUtil.LookbackDays | src/azurecost/date_util.py:12-15 | the lookback is `30*point` days for MONTHLY, `point` days for DAILY, and undefined for every other granularity |
| DateUtil.GetStartAndEnd | src/azurecost/date_util.py:12-20 | the end is `now` and the start keeps `now`'s time of day; it fails with `Unsupported` exactly when the granularity is neither MONTHLY nor DAILY |
| DateUtil.WindowDefined | src/azurecost/date_util.py:12-17 | for a supported granularity, the window exists exactly when the lookback of `30*point` or `point` days is a valid `timedelta` and stays within years 1..9999 |
| DateUtil.DailyWindow | src/azurecost/date_util.py:15-20 | DAILY: the start is exactly `point` days before the end, at the same time of day |
| DateUtil.MonthlyStart | src/azurecost/date_util.py:13-19 | MONTHLY: the start is day 1 of the month containing `now - 30*point` days, at `now`'s time of day |
| DateUtil.MonthlyWindowSpan | src/azurecost/date_util.py:13-20 | MONTHLY: the window spans between `30*point` and `30*point + 30` whole days |
| DateUtil.WindowOrdered | src/azurecost/date_util.py:17-20 | the start is not after the end when `point >= 0`, and is strictly before it when `point >= 1` |
| DateUtil.ThreeMonthWindowCanSpan120Days | tests/test_date_util.py:15-23 | at `now` = 2023-06-29, three MONTHLY points give the window 2023-03-01 to 2023-06-29, which is 120 days |

## Left out

- Azure SDK clients, credentials and the `query.usage` and `subscriptions.list` calls (core.py lines 1-4, 17-22, 58, 69, 76): these are network calls. Their results are inputs to `Core.GetUsage` and `Core.ConvertTabulate`.
- The `@retry` decorator (core.py line 26): it allows a single attempt, so it changes nothing.
- `round(..., 2)` on floating-point costs (core.py lines 88, 93): costs are integers in the model.
- The `tabulate` text rendering (core.py line 110): `Core.ConvertTabulate` returns the sorted rows and the sort column instead of the text.
- Core.GetUsage: takes every argument explicitly. The defaults are not modelled: the constructor's granularity `"MONTHLY"` (core.py line 15), and `get_usage`'s `dimensions=["ServiceName"]` and `ago=1` (core.py lines 30-31, from `constants.py`). A caller passes these values to get the default behaviour.
- Logging (core.py lines 55, 60, 71) and the `QueryTimePeriod` wrapper (core.py line 37): the payload holds the window itself.
- The CLI, logger, constants and packaging files (`commands.py`, `logger.py`, `constants.py`, `setup.py`): these are not part of this model.
- The constructor, dictionary-shaped rows, environment-variable fallback, joined composite keys and "No data available." result that `tests/test_core.py` and `commands.py` expect: `core.py` as written has none of them, and the model follows `core.py`.
- DateUtil.GetStartAndEnd: takes one clock reading `now` for both `datetime.now` calls. The source reads the clock twice, so its end is a few microseconds after the start's base. All times are UTC.
- Timestamp.Parse: accepts only the zero-padded 19-character form with ASCII digits. Python's `strptime` also accepts one-digit month, day, hour, minute and second fields, a space-padded day, and any Unicode decimal digit for `\d`. Such rows are `BadTimestamp` in the model but parse in Python. The `T` separator is matched in either case, as `strptime` ignores case.
- Timestamp.ParseExactlyFormatted: the round trip covers the strings the model's parser accepts; a lower-case `t` separator formats back as `T`.
- Timestamp.PeriodLabel: pads years below 1000 to four digits. On platforms where `strftime('%Y')` does not pad, Python prints those years with fewer digits.
- Pivot.RowEntry: reads only the first column of `rest` as the group key. Extra columns are ignored, as `result[2]` ignores them.

## Findings

| source | as written | input that shows it | evidently intended | confidence | as-written member | corrected member |
|---|---|---|---|---|---|---|
| tests/test_date_util.py:23 | asserts `85 <= diff.days <= 110` for a three-point MONTHLY window | `now` = 2023-06-29: 90 days back is 2023-03-31, which snaps to 2023-03-01, so `diff.days` is 120 | `90 <= diff.days <= 120`, that is `30*point` to `30*point + 30` | not executed | DateUtil.ThreeMonthWindowCanSpan120Days | DateUtil.MonthlyWindowSpan |
