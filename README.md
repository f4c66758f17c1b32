# DateSelector date bucketing, modelled in Dafny

This project models the date-bucketing core of the todo app's `DateSelector` menu
(`src/components/Todo/DateFilter/DateSelector/index.js`). The model covers:

- `formatDate`, which labels a due date Today, Tomorrow, a weekday name, or a month and
  day (with the year only when that year is not the current one);
- `groupByDate`, which filters the todos and files each one under its label in an
  insertion-ordered object;
- `getStats`, which computes the number of todos due today, this week's grouping
  (todos strictly after now and strictly before the end of the week) and the upcoming
  grouping (todos outside the current week);
- the per-key counts that `getFilters` shows;
- the two click handlers;
- the "Nothing yet!" condition.

Files:

- `calendar.dfy` (module `DateFns`) holds the date-fns functions the component imports, taken as given.
  - An instant is an integer number of milliseconds.
  - A `Calendar` value supplies `day` (consecutive local day numbers), `year`, `weekStart`
    (the first instant of the local week) and `format(instant, pattern)`, an
    uninterpreted formatter.
  - `isToday`, `isTomorrow`, `isThisWeek`, `isThisYear`, `isAfter`, `isBefore` and
    `endOfWeek` are derived from these, relative to an explicit `now`. `endOfWeek` is the
    week start plus one week minus one millisecond.
  - `ValidCalendar` states what the week lemmas assume: each week is seven days long,
    every instant of that span lies in the same week, and the instants of one day share a
    week. `UniformCalendar` shows that these assumptions can all hold.
- `buckets.dfy` (module `OrderedBuckets`) holds the accumulator object. It is the sequence
  of keys in insertion order plus a map from key to items. `Append` is
  `r[key] = [...(r[key] || []), x]`.
- `date_selector.dfy` (module `DateSelector`) holds the component's logic.
  - `GroupByDate` is a method with a loop over the filtered list, as the `reduce`
    updates `r` step by step. It is proved equal to the fold `GroupedBy`.
  - `GetStats` and the lemmas are stated on `GroupedBy`.
  - The file ends with a worked example: todos due now, in 1, 10 and 400 days, on the
    uniform calendar.

Points where the model makes a choice:

- **A click on a label that no grouping has.** The source then throws a `TypeError`
  while destructuring. The model returns `Err(UnknownBucket)` (or `Err(EmptyBucket)` for
  an empty array) instead of requiring that the label exists.
- **Todos due today** stay in the groupings, as the source has it. A todo due later
  today is counted in `totalToday` and is also filed under "Today" this week
  (`LaterTodayCountedAndGrouped`).
- **Todos in neither grouping.** A todo due earlier this week, at `now` itself, or at
  the week's last millisecond is in neither grouping (`InNeitherGrouping`).

## Model

| member | source | states |
|---|---|---|
| `DateFns.EndOfWeek` | src/components/Todo/DateFilter/DateSelector/index.js:47-49 | on a valid calendar, the end of the week is not before now, and every instant from now to it is in now's week |
| `OrderedBuckets.Empty` | src/components/Todo/DateFilter/DateSelector/index.js:29 | the initial `{}` is a valid accumulator with no key and no item |
| `OrderedBuckets.Get` | src/components/Todo/DateFilter/DateSelector/index.js:27 | `r[key] || []` is the array under a present key and an empty array otherwise; on a valid accumulator it is empty exactly when the key is absent |
| `OrderedBuckets.Append` | src/components/Todo/DateFilter/DateSelector/index.js:27 | appending an item under a key keeps the accumulator valid (distinct keys, keys listed exactly once, no empty array) |
| `OrderedBuckets.AppendSize` | src/components/Todo/DateFilter/DateSelector/index.js:27 | each append stores exactly one more item over all keys |
| `DateSelector.KindOf` | src/components/Todo/DateFilter/DateSelector/index.js:17-22 | the label is Today exactly on now's day; Tomorrow exactly on the next day; a weekday name exactly for the other days of this week; otherwise a month-day label, with the year exactly when the year differs from now's |
| `DateSelector.Pattern` | src/components/Todo/DateFilter/DateSelector/index.js:20-21 | only the weekday and month-day labels go through `format`, and the pattern ends in ", YYYY" exactly for a month-day label of another year |
| `DateSelector.FormatDate` | src/components/Todo/DateFilter/DateSelector/index.js:17-22 | a date on now's day is labelled "Today", one on the next day "Tomorrow", any other date by `format` with the pattern of its kind |
| `DateSelector.YearSuffixExactlyForOtherYears` | src/components/Todo/DateFilter/DateSelector/index.js:21 | a year suffix appears exactly when the date is not today, tomorrow or this week and its year differs; the Today, Tomorrow and weekday labels never carry a year |
| `DateSelector.Filter` | src/components/Todo/DateFilter/DateSelector/index.js:25 | `list.filter(keep)` is never longer than the list; its members and its length are stated by `FilterMembers` and `FilterCount` |
| `DateSelector.FilterSnoc` | src/components/Todo/DateFilter/DateSelector/index.js:25 | filtering a list with one more item at the end yields the filtered list followed by that item exactly when it passes |
| `DateSelector.FilterMembers` | src/components/Todo/DateFilter/DateSelector/index.js:25 | the filtered list holds exactly the items of the list that pass the filter |
| `DateSelector.FilterCount` | src/components/Todo/DateFilter/DateSelector/index.js:44 | the filtered list is as long as the number of list positions whose item passes the filter |
| `DateSelector.Grouped` | src/components/Todo/DateFilter/DateSelector/index.js:25-29 | the reduce always yields a valid accumulator |
| `DateSelector.GroupedBy` | src/components/Todo/DateFilter/DateSelector/index.js:24-29 | what `groupByDate(list, keep)` returns: the reduce over the filtered list, always a valid accumulator |
| `DateSelector.GroupByDate` | src/components/Todo/DateFilter/DateSelector/index.js:24-29 | the loop that appends each kept item under its label returns exactly the fold `GroupedBy` of the list |
| `DateSelector.GroupedBySnoc` | src/components/Todo/DateFilter/DateSelector/index.js:25-28 | one more item at the end of the list is appended after everything already grouped when it passes the filter, and changes nothing otherwise |
| `DateSelector.GroupedByContents` | src/components/Todo/DateFilter/DateSelector/index.js:26-27 | a key is present exactly when some kept item carries that label, and its array is exactly those items in list order |
| `DateSelector.GroupedByKeysInFirstOccurrenceOrder` | src/components/Todo/DateFilter/DateSelector/index.js:27-32 | the keys (and so the menu entries `Object.keys(obj).map` produces) are exactly the labels of the kept items, and a key listed before another first occurs at an earlier kept position |
| `DateSelector.GroupedByKeyOrder` | src/components/Todo/DateFilter/DateSelector/index.js:27 | the key order of the fold is the append-if-new walk `FirstOccurrences` over the kept labels in list order |
| `DateSelector.FirstOccurrences` | src/components/Todo/DateFilter/DateSelector/index.js:27 | the append-if-new walk has no repeats and contains exactly the labels that occur |
| `DateSelector.FirstOccurrencesOrder` | src/components/Todo/DateFilter/DateSelector/index.js:27 | the append-if-new walk lists the labels in increasing order of the position of their first occurrence |
| `DateSelector.GroupedBySize` | src/components/Todo/DateFilter/DateSelector/index.js:24-29 | no item is dropped or duplicated: the arrays together hold as many items as passed the filter, counted by list position |
| `DateSelector.KeyLabelAgreement` | src/components/Todo/DateFilter/DateSelector/index.js:26-27 | every item under key k is a kept list item whose label is k, and every kept item is under its own label |
| `DateSelector.FilteredOutNowhere` | src/components/Todo/DateFilter/DateSelector/index.js:25 | an item failing the filter is in no array |
| `DateSelector.GroupedByEmpty` | src/components/Todo/DateFilter/DateSelector/index.js:25-29 | the result has no key exactly when no item passes the filter, and it is then the initial `{}` |
| `DateSelector.MatchingHead` | src/components/Todo/DateFilter/DateSelector/index.js:26-27 | the first item labelled k that passes the filter is the list's first such item |
| `DateSelector.BucketHead` | src/components/Todo/DateFilter/DateSelector/index.js:60 | the first item of the array under k is the first item of the list that passes the filter and carries label k |
| `DateSelector.GetFilters` | src/components/Todo/DateFilter/DateSelector/index.js:31-41 | one menu entry per key, in key order, named by the key and labelled with the length of its array |
| `DateSelector.GetFiltersCounts` | src/components/Todo/DateFilter/DateSelector/index.js:36 | every shown count is positive, and the counts add up to the number of items grouped |
| `DateSelector.DueToday` | src/components/Todo/DateFilter/DateSelector/index.js:44 | the `totalToday` filter keeps exactly the todos due on now's day; on a valid calendar these are all due this week |
| `DateSelector.LaterThisWeek` | src/components/Todo/DateFilter/DateSelector/index.js:47-49 | on a valid calendar the this-week filter keeps only todos due after now in now's week, and keeps every todo of now's week due strictly between now and the end of the week |
| `DateSelector.NotThisWeek` | src/components/Todo/DateFilter/DateSelector/index.js:51 | on a valid calendar the upcoming filter keeps only todos due before the week starts or after it ends, never one due today, and never one the this-week filter keeps |
| `DateSelector.GetStats` | src/components/Todo/DateFilter/DateSelector/index.js:43-52 | `totalToday` is the number of list positions whose todo is due on now's day, and both groupings are valid accumulators |
| `DateSelector.EmptyStats` | src/components/Todo/DateFilter/DateSelector/index.js:43-52 | an empty list gives a zero count and two empty groupings |
| `DateSelector.ThisWeekUpcomingDisjoint` | src/components/Todo/DateFilter/DateSelector/index.js:45-51 | on a valid calendar, no todo in this week's grouping is in any upcoming array |
| `DateSelector.GroupingLabelKinds` | src/components/Todo/DateFilter/DateSelector/index.js:17-22 | on a valid calendar, this week's todos are labelled Today, Tomorrow or a weekday; upcoming todos are labelled Tomorrow or a month-day label |
| `DateSelector.LaterTodayCountedAndGrouped` | src/components/Todo/DateFilter/DateSelector/index.js:44-50 | a todo due later today counts towards `totalToday` and is also filed under "Today" this week |
| `DateSelector.InNeitherGrouping` | src/components/Todo/DateFilter/DateSelector/index.js:45-51 | a todo is in neither grouping exactly when it is due this week but not strictly between now and the end of the week |
| `DateSelector.ShowsPlaceholder` | src/components/Todo/DateFilter/DateSelector/index.js:73 | on a valid accumulator, `!Object.entries(upcoming).length` holds exactly when the upcoming object has no entry |
| `DateSelector.PlaceholderIffAllThisWeek` | src/components/Todo/DateFilter/DateSelector/index.js:73-75 | "Nothing yet!" is shown exactly when every todo of the list is due this week |
| `DateSelector.HandleTodayFilter` | src/components/Todo/DateFilter/DateSelector/index.js:58 | the Today entry reports key "Today" with the current instant, whatever the groupings hold |
| `DateSelector.HandleAnyOtherFilter` | src/components/Todo/DateFilter/DateSelector/index.js:59-65 | any other entry reports its own name and the date of the first item under that name, looking in this week's grouping first and only then in upcoming; a name in neither fails |
| `DateSelector.RepresentativeDate` | src/components/Todo/DateFilter/DateSelector/index.js:59-64 | on freshly computed statistics, selecting a key succeeds and reports the date of the list's first todo filed under it, this week's grouping taking precedence; it fails exactly for a name that is a key of neither grouping |
| `DateSelector.Scenario` | src/components/Todo/DateFilter/DateSelector/index.js:43-52 | todos due now, in 1, 10 and 400 days give one todo today, a Tomorrow key this week, and upcoming keys for a month-day label without and with a year |

## Left out

- React rendering, `memo`, PropTypes, and the Blueprint `Menu`, `MenuItem` and `MenuDivider` widgets (lines 1-3, 67-84). Only the per-key counts and the placeholder condition are kept.
- SCSS module styling (line 15): presentation only.
- date-fns internals (lines 4-13). These are day and year numbering, week start, locale, time zone, and the text that `format` produces. They are parameters of the model, never re-implemented.
- `endOfWeek` is modelled as the week start plus seven 24-hour days minus one millisecond. A week that a daylight-saving change makes shorter or longer is not modelled.
- The system clock (`new Date()` at lines 48, 49 and 58) is one `now` parameter. The source reads the clock several times within one render; the model assumes all those reads return the same instant.
- The `onSelect` callback and the click event (`e.target.name`). A handler returns the event it would pass to `onSelect`, and the clicked name is a string parameter.
- JavaScript object quirks: lookups of inherited names such as "constructor", and the enumeration order of integer-like keys. No label of the form `formatDate` produces is such a name.
- Dates that are not valid instants (an invalid `Date`, a missing `date` field). An instant here is always an integer.
- FormatDate: states "Tomorrow only on the next day" and "a weekday name only for other dates of this week" about the label kind (`KindOf`), not about the text. The text of `format` is uninterpreted and could in principle equal "Tomorrow".
- ThisWeekUpcomingDisjoint: states disjointness of todos, not of keys. An uninterpreted formatter could give a weekday name and a month-day label the same text. `HandleAnyOtherFilter` states the precedence rule for that case.
