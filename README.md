# Project timeline and list pages: a Dafny model

This project models the computational core of a small React project-management front
end:

- **The Gantt chart component.** It builds a date window around an anchor date in day, week or month view. It lays out the tick dates of the header and labels weeks. It places each task bar in percent of the axis, clamped and then scaled by zoom, and picks the bar colour. It also places the "today" marker, moves the anchor with the prev/next buttons, steps the zoom level, and draws dependency connectors between bars.
- **The timeline page.** It has a sample schedule, progress statistics, the task selected by a click, and the names of the selected task's dependencies.
- **The project list and the task list.** They have status and priority badge mappings, a case-insensitive search combined with a status selector, the status label, and the team avatars of a project card.
- **The `useLocalStore` hook.** It keeps an in-memory list of records, a loading flag and an error message in step with a key-value store whose every call may fail.

Dates are whole days counted from 1970-01-01. The calendar is ECMAScript's: `DayFromYear`, leap years, `setMonth` overflow of a day the target month lacks, and `getDay` with day 0 a Thursday. The zoom level is an integer count of quarters, 2..8 for 0.5..2. Percentages are `real`. The current time, the generated UUID, each reading of the current ISO time stamp and the failure (if any) met by each store call are parameters.

Modules:

| file | module | models |
|---|---|---|
| wrappers.dfy | Wrappers | `Option` and `Result` |
| civil_date.dfy | CivilDate | day numbers, civil dates, `setDate`/`setMonth`, `getDay` |
| lists.dfy | Lists | the order-preserving `Array.prototype.filter` |
| text.dfy | Text | `toLowerCase`, `includes`, `replace` with a one-character pattern |
| gantt_chart.dfy | GanttChart | `GanttChart.tsx` |
| timeline.dfy | Timeline | `Timeline.tsx` |
| badges.dfy | Badges | the badge variants and the shared priority mapping |
| search.dfy | Search | the shared search and status-selector predicates |
| projects.dfy | Projects | `Projects.tsx` |
| tasks_page.dfy | Tasks | `Tasks.tsx` |
| local_store.dfy | LocalStore | `useLocalStore.ts` and the store interface of `indexedDb.ts` |

## Model

| member | source | states |
|---|---|---|
| CivilDate.DaysInMonth | src/components/ui/GanttChart.tsx:50-52 | every month has 28 to 31 days |
| CivilDate.FirstOfMonthStep | src/components/ui/GanttChart.tsx:50-52 | the next month starts the day after this month's last day, across year ends too |
| CivilDate.FirstOfMonthGrowth | src/components/ui/GanttChart.tsx:50-52 | between the firsts of two months lie 28 to 31 days per month |
| CivilDate.YearStep | src/components/ui/GanttChart.tsx:50-52 | January 1st of the next year is 365 days later, or 366 in a leap year |
| CivilDate.Normalize | src/components/ui/GanttChart.tsx:42-52 | a day of the month outside its month is carried into earlier or later months, giving a valid date on the same day |
| CivilDate.ToCivil | src/components/ui/GanttChart.tsx:42-51 | `getFullYear`/`getMonth`/`getDate` give a valid date that names the same day |
| CivilDate.CivilInjective | src/components/ui/GanttChart.tsx:42-51 | two valid civil dates that name the same day are equal |
| CivilDate.ToCivilOfDay | src/components/ui/GanttChart.tsx:42-51 | breaking down the day of a valid civil date gives that date back |
| CivilDate.AddMonthsDistance | src/components/ui/GanttChart.tsx:50-52 | `setMonth(getMonth() + k)` moves a date 28k to 31k days, in the direction of k |
| CivilDate.ShiftMonthsBounds | src/components/ui/GanttChart.tsx:50-52 | `setMonth(getMonth() + k)` on a valid date moves it 28k to 31k days, in the direction of k |
| CivilDate.AddOneMonth | src/components/ui/GanttChart.tsx:74-75 | one month forward moves a date by exactly the length of its month |
| CivilDate.ShiftMonthsKeepsDate | src/components/ui/GanttChart.tsx:131-132 | when the target month has the day of the month, `setMonth` keeps it |
| CivilDate.January31PlusOneMonth | src/components/ui/GanttChart.tsx:131-132 | January 31st plus one month is March 3rd, or March 2nd in a leap year |
| CivilDate.WeekDay | src/components/ui/GanttChart.tsx:108 | `getDay` is in 0..6 |
| GanttChart.WindowOf | src/components/ui/GanttChart.tsx:37-57 | the window starts before the anchor and ends after it |
| GanttChart.WindowSpan | src/components/ui/GanttChart.tsx:41-53 | the window spans 37 days in day view and 74 in week view; in month view it starts 56 to 62 days back and ends 168 to 186 days ahead; it always reaches further ahead than back |
| GanttChart.Step | src/components/ui/GanttChart.tsx:66-76 | every step moves the tick date forward |
| GanttChart.TicksShape | src/components/ui/GanttChart.tsx:59-80 | the ticks are non-empty exactly when the window is; they start at the window start, stay within the window, follow one another by one step, strictly increase, and stop where one more step would pass the end |
| GanttChart.TicksEvenlySpaced | src/components/ui/GanttChart.tsx:59-80 | in day and week view the i-th tick is i steps after the start, and there are (end − start) / step + 1 ticks |
| GanttChart.WindowTickCounts | src/components/ui/GanttChart.tsx:41-48 | day view shows 38 ticks and week view 11 |
| GanttChart.MonthTicksSkipJune | src/components/ui/GanttChart.tsx:50-52 | with the anchor on July 31st in month view, the window starts on May 31st and the next tick is July 1st, so June has no tick |
| GanttChart.TodayHighlightedOnce | src/components/ui/GanttChart.tsx:116-119 | at most one tick is highlighted as today, and in day view a today inside the window is highlighted |
| GanttChart.UnzoomedPosition | src/components/ui/GanttChart.tsx:82-88 | left is never negative and is 0 for a task starting at or before the window start; width never passes the right edge; a task inside the window gets its exact duration share, and its bar fits in 0..100 |
| GanttChart.FractionsWithinWhole | src/components/ui/GanttChart.tsx:87-88 | two parts of a whole, taken in percent, fit within 100 |
| GanttChart.ZoomIsLinear | src/components/ui/GanttChart.tsx:90 | zoom scales left and width linearly after clamping, and zoom 1 is the unzoomed placement |
| GanttChart.ZoomedWidthMayExceedAxis | src/components/ui/GanttChart.tsx:87-90 | a task filling the window is 200% wide at zoom 2: the zoomed values are not clamped again |
| GanttChart.SixtyDayWindowExample | src/components/ui/GanttChart.tsx:83-88 | a 10-day task starting 10 days into a 60-day window has left = width = 100·10/60 |
| GanttChart.EarlyTaskClampedLeft | src/components/ui/GanttChart.tsx:84-87 | a task starting before the window is drawn from left 0 at every zoom |
| GanttChart.TaskColor | src/components/ui/GanttChart.tsx:93-101 | the colour is never empty: a truthy override wins, otherwise milestone is purple, project blue and task green |
| GanttChart.TypeColorsDistinct | src/components/ui/GanttChart.tsx:96-100 | the three types get three different colours, and an empty override counts as none |
| GanttChart.WeekOfMonth | src/components/ui/GanttChart.tsx:108 | the week label number is 1..6 |
| GanttChart.FirstIsWeekOne | src/components/ui/GanttChart.tsx:108 | the first of every month is in week 1 |
| GanttChart.WeekOfMonthStep | src/components/ui/GanttChart.tsx:108 | within a month the week number goes up by one exactly on Sundays and stays the same on other days |
| GanttChart.CeilStep | src/components/ui/GanttChart.tsx:108 | arithmetic core of the step: one more day raises the rounded-up week exactly on a Sunday |
| GanttChart.TodayMarker | src/components/ui/GanttChart.tsx:221-227 | the marker is shown exactly when the anchor date is today |
| GanttChart.TodayMarkerIsTaskPosition | src/components/ui/GanttChart.tsx:221-227 | the marker sits where a task starting today would start, at the same zoom |
| GanttChart.NavigationDirection | src/components/ui/GanttChart.tsx:121-137 | next moves the anchor forward and prev back, in every view |
| GanttChart.NavigationRoundTrip | src/components/ui/GanttChart.tsx:124-129 | in day and week view prev undoes next and next undoes prev; two nexts in week view move 28 days |
| GanttChart.MonthNavigationRoundTrip | src/components/ui/GanttChart.tsx:130-132 | in month view prev undoes next for a day of the month up to 28 |
| GanttChart.MonthNavigationLosesDay | src/components/ui/GanttChart.tsx:130-132 | from January 31st, next then prev does not come back |
| GanttChart.Zoomed | src/components/ui/GanttChart.tsx:139-144 | zoom stays within 0.5..2: in adds a quarter unless at 2, out removes one unless at 0.5 |
| GanttChart.ZoomRoundTrip | src/components/ui/GanttChart.tsx:139-144 | in then out restores the level below the maximum, and out then in restores it above the minimum |
| GanttChart.ZoomInTimes | src/components/ui/GanttChart.tsx:139-142 | any number of zoom-ins stays within 0.5..2 |
| GanttChart.ZoomInSaturates | src/components/ui/GanttChart.tsx:139-142 | n zoom-ins add n quarters up to the maximum and no further |
| GanttChart.SevenZoomInsFromOne | src/components/ui/GanttChart.tsx:139-142 | seven zoom-ins from 1 stop at 2 |
| GanttChart.FindTask | src/components/ui/GanttChart.tsx:256 | `find` yields nothing exactly when no task has the id, and otherwise the first task with it |
| GanttChart.ResolveDependencies | src/components/ui/GanttChart.tsx:255-259 | no more resolved tasks than dependency ids |
| GanttChart.ResolveAppend | src/components/ui/GanttChart.tsx:255-259 | resolution works id by id: resolving a concatenation concatenates the resolutions |
| GanttChart.DanglingIdIgnored | src/components/ui/GanttChart.tsx:256-257 | an id that matches no task is skipped wherever it appears, with no error |
| GanttChart.ResolveAllPresent | src/components/ui/GanttChart.tsx:255-259 | when every id resolves, the k-th connector belongs to the first task with the k-th id |
| GanttChart.Connectors | src/components/ui/GanttChart.tsx:255-279 | one connector per resolving dependency, from the dependency's left edge to this task's left edge |
| GanttChart.GanttChart.constructor | src/components/ui/GanttChart.tsx:28-35 | the view mode is the one passed, or weeks when none is; the anchor starts at today and the zoom at 1 |
| GanttChart.GanttChart.DateRangeOf | src/components/ui/GanttChart.tsx:37-57 | the method computes the window of the current anchor and view |
| GanttChart.GanttChart.TimeSlots | src/components/ui/GanttChart.tsx:59-80 | the loop yields exactly the ticks of the window |
| GanttChart.GanttChart.NavigateDate | src/components/ui/GanttChart.tsx:121-137 | the anchor moves as `Navigated` says; the zoom and the view mode are unchanged |
| GanttChart.GanttChart.HandleZoom | src/components/ui/GanttChart.tsx:139-144 | the zoom steps as `Zoomed` says; the anchor and the view mode are unchanged |
| GanttChart.GanttChart.SetViewMode | src/pages/Timeline.tsx:172-174 | a new view mode from the page's selector reaches the chart, which keeps its anchor and zoom |
| Timeline.DateIn2024 | src/pages/Timeline.tsx:17-18 | a 2024 date is January 1st, 2024 (day 19723) plus its day of the year |
| Timeline.SampleDatesAreCalendarDates | src/pages/Timeline.tsx:13-95 | the day numbers in the sample schedule are the dates the page writes |
| Timeline.GetTaskStats | src/pages/Timeline.tsx:101-108 | each category count is at most the total |
| Timeline.CategoriesDisjoint | src/pages/Timeline.tsx:103-105 | no task is in two categories, and a progress in [0, 100] is in exactly one |
| Timeline.StatsPartition | src/pages/Timeline.tsx:101-108 | when every progress lies in [0, 100], completed + in progress + not started = total |
| Timeline.OutOfRangeProgressUncounted | src/pages/Timeline.tsx:103-105 | a progress outside [0, 100] counts in the total but in no category |
| Timeline.StatsOfCons | src/pages/Timeline.tsx:101-108 | the statistics of a schedule are those of its tail plus its first task |
| Timeline.SampleTailStats | src/pages/Timeline.tsx:63-108 | the last four sample tasks count as not started |
| Timeline.SampleStats | src/pages/Timeline.tsx:13-108 | the sample schedule has 8 tasks: 1 completed, 3 in progress, 4 not started |
| Timeline.TimelinePage.constructor | src/pages/Timeline.tsx:9-10 | the page starts in week view with no task selected |
| Timeline.TimelinePage.HandleTaskClick | src/pages/Timeline.tsx:97-99 | the clicked task becomes the selected one, and the view mode is unchanged |
| Timeline.TimelinePage.SetViewMode | src/pages/Timeline.tsx:172-174 | only the view mode changes |
| Timeline.DependencyNames | src/pages/Timeline.tsx:246-252 | one name per resolving dependency id, in id order, each the name of the first task with that id |
| Timeline.SampleLookups | src/pages/Timeline.tsx:13-95 | in the sample, id "3" finds the database migration and id "4" the API development |
| Timeline.SampleDependencyNames | src/pages/Timeline.tsx:246-252 | the security audit lists "Database Migration" and "API Development", in that order |
| Timeline.DanglingDependencyShowsNothing | src/pages/Timeline.tsx:247-252 | an id matching no task, such as "99", adds no badge |
| Badges.PriorityVariant | src/pages/Projects.tsx:26-34 | total mapping: critical is destructive, high default, medium secondary, and anything else outline (the same switch as src/pages/Tasks.tsx:48-56) |
| Badges.PriorityVariantsDistinct | src/pages/Tasks.tsx:48-56 | low is outline, and the four priorities get four different variants |
| Search.EmptySearchMatches | src/pages/Projects.tsx:37-38 | the empty search term matches every record |
| Search.SearchIgnoresCase | src/pages/Projects.tsx:37-38 | upper- or lower-casing the search term does not change whether a record matches |
| Projects.StatusVariant | src/pages/Projects.tsx:15-24 | total mapping: active is default, completed secondary, cancelled destructive, and anything else outline |
| Projects.PriorityBadge | src/pages/Projects.tsx:127 | a project's priority badge is outline exactly when its priority is not critical, high or medium |
| Projects.FilteredProjects | src/pages/Projects.tsx:36-41 | the result is an order-preserving subsequence; every kept project matches the search and the selector; every project that matches both is kept; with a selector other than "all", every kept project has that status; each kept project appears as many times as in the list |
| Projects.EmptySearchKeepsAll | src/pages/Projects.tsx:36-41 | an empty search with "all" keeps every project |
| Projects.FilterIgnoresCase | src/pages/Projects.tsx:37-38 | the case of the search term does not change the list |
| Projects.StatusLabel | src/pages/Projects.tsx:125 | the label has the status's length; it equals the status when there is no underscore, and otherwise only the first underscore becomes a space |
| Projects.OnHoldLabel | src/pages/Projects.tsx:125 | "on_hold" reads "on hold" |
| Projects.PlainStatusLabels | src/pages/Projects.tsx:125 | the other four statuses read as written |
| Projects.LaterUnderscoresKept | src/pages/Projects.tsx:125 | every character after the first underscore, underscores included, is kept |
| Projects.Team | src/pages/Projects.tsx:152-172 | no team row for an empty team; otherwise min(n, 3) avatars lettered A, B, C in order, and a "+(n − 3)" badge exactly when n > 3 |
| Projects.TeamAccountsForEveryone | src/pages/Projects.tsx:156-172 | avatars plus the overflow count equal the team size |
| Projects.TeamOfFive | src/pages/Projects.tsx:156-172 | a team of five shows A, B, C and +2 |
| Tasks.StatusVariant | src/pages/Tasks.tsx:58-66 | total mapping: done is default, in progress secondary, and anything else outline, never destructive |
| Tasks.SampleBadges | src/pages/Tasks.tsx:12-66 | the badges of the three sample tasks |
| Tasks.FilteredTasks | src/pages/Tasks.tsx:68-73 | the result is an order-preserving subsequence; a task is kept exactly when its lowercased title or description contains the lowercased term and its status passes the selector, as many times as in the list |
| Tasks.EmptySearchKeepsAll | src/pages/Tasks.tsx:68-73 | an empty search with "all" keeps every task |
| Tasks.FilterIgnoresCase | src/pages/Tasks.tsx:69-70 | the case of the search term does not change the list |
| Tasks.SampleAllShown | src/pages/Tasks.tsx:12-46 | an empty search with "all" shows all three sample tasks |
| Tasks.TodoAcceptsTaskTwoOnly | src/pages/Tasks.tsx:12-46 | with "todo", only the second sample task passes |
| Tasks.SampleTodoShowsTaskTwo | src/pages/Tasks.tsx:68-73 | with "todo" the list is just task "2" |
| Text.Lower | src/pages/Projects.tsx:37 | `toLowerCase` keeps the length and lowers each character |
| Text.LowerIgnoresCase | src/pages/Projects.tsx:37-38 | lowering after raising or lowering is plain lowering |
| Text.Contains | src/pages/Projects.tsx:37-38 | `includes` holds exactly when the term occurs at some position |
| Text.IndexOf | src/pages/Projects.tsx:125 | the position of the first occurrence of a character, or −1 exactly when it does not occur |
| Text.ReplaceFirst | src/pages/Projects.tsx:125 | one-character `replace` keeps the length and changes only the first occurrence |
| Text.ReplaceFirstAt | src/pages/Projects.tsx:125 | the occurrence replaced is the first one |
| Lists.Filter | src/pages/Projects.tsx:36 | `filter` keeps exactly the elements that satisfy the predicate |
| Lists.FilterMultiplicity | src/pages/Projects.tsx:36 | `filter` keeps every copy of an element that satisfies the predicate and no copy of any other |
| Lists.FilterIsSubsequence | src/pages/Projects.tsx:36 | `filter` keeps the survivors in their order |
| Lists.FilterKeepsAll | src/pages/Projects.tsx:36 | a predicate that holds everywhere keeps everything |
| Lists.FilterAppend | src/pages/Timeline.tsx:103-105 | filtering distributes over concatenation |
| Lists.FilterCongruent | src/pages/Projects.tsx:36 | predicates that agree on every element filter alike |
| LocalStore.MessageOf | src/hooks/useLocalStore.ts:20 | an `Error`'s own message, or the operation's fallback text for any other thrown value |
| LocalStore.FindById | src/hooks/useLocalStore.ts:46 | nothing exactly when no record has the id, and otherwise the first record with it |
| LocalStore.ReplaceById | src/hooks/useLocalStore.ts:58 | the map keeps the length |
| LocalStore.ReplaceByIdSpec | src/hooks/useLocalStore.ts:58 | every record with the id becomes the replacement, and every other record stays in place |
| LocalStore.ReplaceAbsentId | src/hooks/useLocalStore.ts:58 | replacing an id that no record has changes nothing |
| LocalStore.FindAfterReplace | src/hooks/useLocalStore.ts:51-58 | after a replacement that keeps the id, a lookup finds the replacement |
| LocalStore.RemoveById | src/hooks/useLocalStore.ts:69 | an order-preserving subsequence holding exactly the records without the id, each as many times as before |
| LocalStore.RemoveAbsentId | src/hooks/useLocalStore.ts:69 | removing an id that no record has changes nothing |
| LocalStore.RemoveTwice | src/hooks/useLocalStore.ts:66-69 | deleting twice leaves the same list as deleting once |
| LocalStore.SameRecordsSameIds | src/hooks/useLocalStore.ts:46 | two lists with the same records find an id in both or in neither |
| LocalStore.RemoveSameRecords | src/hooks/useLocalStore.ts:69 | removing an id from two lists with the same records leaves the same records |
| LocalStore.ReplaceAppend | src/hooks/useLocalStore.ts:58 | the replacing map distributes over concatenation |
| LocalStore.ReplaceSameRecords | src/hooks/useLocalStore.ts:58 | replacing an id in two lists with the same records leaves the same records, whatever their order |
| LocalStore.TableRows | src/services/localDb/indexedDb.ts:61-71 | a table never written lists no records |
| LocalStore.UpsertRow | src/services/localDb/indexedDb.ts:73-83 | after `put` the id finds the written record; a new id is added after the others, and an existing id keeps the length |
| LocalStore.Store.constructor | src/services/localDb/indexedDb.ts:9-12 | a new store has no tables |
| LocalStore.Store.Get | src/services/localDb/indexedDb.ts:49-59 | a failure is handed back; otherwise the first record with the id, or none exactly when no record has it |
| LocalStore.Store.List | src/services/localDb/indexedDb.ts:61-71 | a failure is handed back; otherwise the table's records |
| LocalStore.Store.Upsert | src/services/localDb/indexedDb.ts:73-83 | a failure changes nothing; otherwise the table becomes `UpsertRow` of it |
| LocalStore.Store.Remove | src/services/localDb/indexedDb.ts:85-95 | a failure changes nothing; otherwise the table loses every record with the id |
| LocalStore.NewItem | src/hooks/useLocalStore.ts:28-33 | the new record has the fresh id, the creation stamp of the first clock read and the update stamp of the second, and keeps every other field of the item |
| LocalStore.Merged | src/hooks/useLocalStore.ts:51-55 | the updates override the existing fields, the other fields stay, and the update stamp is now |
| LocalStore.MergedKeepsId | src/hooks/useLocalStore.ts:51-55 | updates without an id keep the record's id |
| LocalStore.UpsertMatchesReplace | src/hooks/useLocalStore.ts:57-58 | when the list and the table hold the same records, `put` of a known id and the in-memory replacement keep them so |
| LocalStore.UpsertMatchesAppend | src/hooks/useLocalStore.ts:35-36 | when the list and the table hold the same records, `put` of a new id and the in-memory append keep them so |
| LocalStore.LocalStoreHook.constructor | src/hooks/useLocalStore.ts:5-11 | the hook starts with the initial data (or none), loading, and no error |
| LocalStore.LocalStoreHook.LoadData | src/hooks/useLocalStore.ts:13-24 | always ends not loading; on success the data is the table's records and the error is cleared; on failure the data is unchanged and the error is the failure's message or "Failed to load data" |
| LocalStore.LocalStoreHook.AddItem | src/hooks/useLocalStore.ts:26-42 | on success exactly one new record is appended, the store has it and it is returned; on failure the data and the store are unchanged, the error is set and the failure is handed back; a fresh id keeps the data holding the same records as the table |
| LocalStore.LocalStoreHook.UpdateItem | src/hooks/useLocalStore.ts:44-64 | an unknown id fails with "Item not found" and changes no data; on success the length is kept, every record with the id becomes the merged record and the rest stay; on store failure nothing changes but the error; updates that keep the id keep the data holding the same records as the table |
| LocalStore.LocalStoreHook.DeleteItem | src/hooks/useLocalStore.ts:66-74 | on success exactly the records with the id are removed, in order, from the data and the store; on failure the data is unchanged and the error is set; the data keeps holding the same records as the table |
| LocalStore.LocalStoreHook.GetItem | src/hooks/useLocalStore.ts:76-83 | the stored record with the id, or none; a failure reads as none and sets the error; a success leaves the error as it was |

## Left out

- Time of day, time zones and daylight saving time: a date is a whole day, so `isToday` compares day numbers and the today marker uses today's day, not the current instant.
- Locale formatting of the day-view and month-view tick labels and of the month shown between the navigation buttons; only the week-view label is computed.
- Rendering: CSS class strings other than the bar colours, the SVG connector paths, the `calc(...)` width strings, the progress bars and the milestone dot styling.
- React machinery: `useMemo` caching, re-rendering, and the `useEffect` that loads the table on mount. Each hook operation runs as one atomic step; the interleaving of concurrent `async` calls is not modelled.
- GanttChart.UnzoomedPosition: follows the code, which has no guard against an empty window and no clamping of a negative task duration. The model requires a window that is not empty, and every window the chart builds satisfies this (`WindowOf` ensures start < end). A task ending before it starts gets a negative width, as in the code.
- GanttChart.Step: a month step on the 29th to the 31st can skip a shorter month, as the code does; the model keeps this behaviour, and `MonthTicksSkipJune` exhibits it.
- Subtasks of a Gantt task are not modelled: the chart never reads them.
- Timeline.GetTaskStats: progress is an integer; the code's `number` may be fractional, which changes only which values count as "in progress".
- Text.Lower: case mapping covers ASCII letters only; the Unicode case mapping of `toLowerCase` is not modelled.
- LocalStore.Store.Upsert: requires the record to carry an "id", which every record the hook writes does; the key-path error that IndexedDB raises for a record without one is not modelled.
- LocalStore.Store.List: lists records in insertion order, while IndexedDB lists them in key order. The hook's `InStep` therefore compares the records of the data and of the table with their multiplicities and leaves their order open.
- Opening the IndexedDB database, creating its object stores, and `clear(table)` (which the hook never calls) are not modelled; neither is a store that rejects an unknown table name.
- The project list's create, edit and delete buttons, which have no handlers, and the due-date and tag display are not modelled.
- Records are maps from field names to strings; non-string fields (numbers, arrays) of projects and tasks are not stored through the hook model.
