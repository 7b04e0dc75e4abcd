# SupplyPro dashboard rules, in Dafny

SupplyPro is a supply-chain operations dashboard written as React components.
Its logic sits inside the components, and this project states and proves six
groups of those rules:

- **Action-plan table** (`ActionGrid`):
  - a search box and two dropdown filters;
  - pagination with 15 rows per page;
  - the "Showing x–y of n" label and the Previous/Next buttons;
  - editing one field of the rows with a given id;
  - prepending a new row;
  - a save step.

  The component's state is the class `ActionPlanGrid`, and its handlers are methods proved against functions on values.
- **Status cycle** (`StatusIndicator`): the five action statuses and the two click handlers that advance a status, plus the two title strings.
- **Editable cell** (`EditableCell`):
  - the `isEditing`/`value` state machine: click, typing, blur, Enter, Escape, and a new prop value;
  - the display fallback.

  The state is the class `Cell`, and each handler is proved against the one-event reaction `Step`. Sequences of events are studied through `Run`.
- **Planner grid** (`PlannerGrid`):
  - the click-to-sort configuration;
  - the comparator and the sort it drives;
  - the footer totals;
  - the planner initials;
  - the three highlight thresholds.
- **KPI card** (`KpiCard`): the sign classification of the trend, its colour and icon, the magnitude shown, and the status border.
- **Ranking** (`RankingList`): the ranking table, its scoring formula, the podium (second, first, third) and the leaderboard after it.

`JsBuiltins` models the ECMAScript built-ins these rules use:

- `slice` with negative and out-of-range indices;
- `toLowerCase`;
- `includes`;
- `split` and `join`;
- `substring(0, n)`;
- `replace` with a one-character pattern.

Some behaviours follow the code even where they look accidental:

- The page number is not reset when a filter changes.
- The search also looks at `id` and at the `isNew` flag, rendered as "true"/"false".
- A cell whose prop is a number always saves after typing, because the typed text is a string and `!==` is strict.

## Model

| member | source | states |
|---|---|---|
| JsBuiltins.Slice | src/components/action-plan/action-grid.tsx:62 | `slice(start, end)` with `0 <= start <= end` returns `min(end, n) - min(start, n)` elements, the ones from position `start` on; the result is never longer than the array or than `end - start` |
| JsBuiltins.Take | src/components/planner/planner-grid.tsx:120 | `substring(0, n)` returns the first `min(n, length)` characters: a prefix of the string |
| JsBuiltins.ToLowerCase | src/components/action-plan/action-grid.tsx:53 | lower-casing keeps the length, turns each folded capital into its lower-case letter (32 code points on), and keeps every other character |
| JsBuiltins.Includes | src/components/action-plan/action-grid.tsx:53 | a string includes each of its prefixes, the empty string among them, and never a longer string |
| JsBuiltins.IncludesIffOccurs | src/components/action-plan/action-grid.tsx:53 | `s.includes(t)` holds exactly when `t` occurs at some position of `s` |
| JsBuiltins.Split | src/components/planner/planner-grid.tsx:120 | `split(' ')` returns at least one piece, and no piece contains the separator |
| JsBuiltins.Join | src/components/planner/planner-grid.tsx:120 | `join(sep)` starts with the first piece, and its length is at least (number of pieces − 1) · separator length |
| JsBuiltins.JoinLayout | src/components/planner/planner-grid.tsx:120 | `join(sep)` is the first piece, the separator, then the join of the rest; it ends with the last piece and its length is the pieces' lengths plus one separator per gap |
| JsBuiltins.SplitJoin | src/components/planner/planner-grid.tsx:120 | `split(' ')` keeps every character: joining the pieces with the separator gives the name back; no piece contains the separator |
| JsBuiltins.IndexOf | src/components/action-plan/status-indicator.tsx:38 | `indexOf` finds the first occurrence: the character is there and not before it; the length when absent |
| JsBuiltins.ReplaceFirst | src/components/action-plan/status-indicator.tsx:38 | `replace("_", " ")` changes only the first underscore, and nothing when there is none |
| StatusIndicator.Name | src/components/action-plan/status-indicator.tsx:6 | each `StatusType` literal is non-empty and has an underscore iff it is not_started, in_progress or nearly_done |
| StatusIndicator.NameInjective | src/components/action-plan/status-indicator.tsx:6 | the five literals are pairwise different |
| StatusIndicator.Cycle | src/components/action-plan/status-indicator.tsx:19-25 | the `cycle` table maps each status to the next one in declared order, wrapping from cancelled to not_started; no status maps to itself |
| StatusIndicator.NextStatus | src/components/action-plan/status-indicator.tsx:80-86 | the `nextStatus` table is total and is the same successor function as `cycle` |
| StatusIndicator.TablesTotal | src/components/action-plan/status-indicator.tsx:80-86 | both tables have an entry for every status |
| StatusIndicator.TablesAgree | src/components/action-plan/status-indicator.tsx:80-86 | the two lookup tables are equal |
| StatusIndicator.IterateShifts | src/components/action-plan/status-indicator.tsx:80-86 | n clicks move the status n places forward in declared order, modulo 5 |
| StatusIndicator.CyclePeriodFive | src/components/action-plan/status-indicator.tsx:80-86 | five clicks return every status to itself, and 1 to 4 clicks never do |
| StatusIndicator.IndicatorClick | src/components/action-plan/status-indicator.tsx:15-28 | the indicator calls `onChange` at most once: not at all iff readonly or no `onChange`, otherwise with the next status |
| StatusIndicator.ToggleClick | src/components/action-plan/status-indicator.tsx:90 | the toggle calls `onToggle` iff not readonly, with the next status |
| StatusIndicator.ClicksAgree | src/components/action-plan/status-indicator.tsx:90 | with a callback present, both components emit the same thing |
| StatusIndicator.IndicatorTitle | src/components/action-plan/status-indicator.tsx:38 | the indicator title has the status name's length and equals it when the name has no underscore |
| StatusIndicator.IndicatorTitles | src/components/action-plan/status-indicator.tsx:38 | the five titles are "not started", "in progress", "nearly done", "completed", "cancelled" |
| StatusIndicator.ToggleTitle | src/components/action-plan/status-indicator.tsx:93 | the toggle title is "Cancelled" iff the status is cancelled, and "Click to change status" otherwise |
| ActionGrid.SetField | src/components/action-plan/action-grid.tsx:67 | `{ ...row, [field]: value }` gives the edited key the new value and every other key its old value |
| ActionGrid.PresentFields | src/components/action-plan/action-grid.tsx:52 | the keys `Object.values` visits are exactly the keys the row has: every required key, and `plannerLevel` and `isNew` only when present |
| ActionGrid.SearchValues | src/components/action-plan/action-grid.tsx:52-53 | `Object.values(row).map(String)`: 13 to 15 strings, among them every present text property, the status literal and a present `isNew` as "true"/"false" |
| ActionGrid.SearchValuesExactly | src/components/action-plan/action-grid.tsx:52-53 | a string is searched iff it is the string of one of the row's present properties: nothing else is searched |
| ActionGrid.MatchesSearch | src/components/action-plan/action-grid.tsx:52-54 | a row matches the search iff one of its values, lower-cased, includes the lower-cased term |
| ActionGrid.Matches | src/components/action-plan/action-grid.tsx:51-58 | with an empty search only the two dropdowns decide; with both dropdowns on "All" only the search decides |
| ActionGrid.SomeIncludesIff | src/components/action-plan/action-grid.tsx:52-54 | `some` over the row's values holds iff one value, lower-cased, includes the term |
| ActionGrid.EmptySearchMatches | src/components/action-plan/action-grid.tsx:52-54 | an empty search term matches every row |
| ActionGrid.SearchIgnoresCase | src/components/action-plan/action-grid.tsx:53 | a term and its lower-cased form match the same rows |
| ActionGrid.SearchFindsEveryValue | src/components/action-plan/action-grid.tsx:52-54 | a term found in any property value, `id` and a present `isNew` included, finds the row |
| ActionGrid.FilterRows | src/components/action-plan/action-grid.tsx:50-60 | the filtered list holds exactly the rows of `data` that pass search, process and team-leader tests, and is no longer than `data` |
| ActionGrid.FilterPositions | src/components/action-plan/action-grid.tsx:50-60 | the filtered list is taken from increasing positions of `data`, and a position is kept iff its row matches |
| ActionGrid.FilterIsSubsequence | src/components/action-plan/action-grid.tsx:50-60 | the filtered list is a subsequence of `data`, in the original order |
| ActionGrid.FilterKeepsAllWhenAllMatch | src/components/action-plan/action-grid.tsx:50-60 | when every row matches, the filter returns `data` unchanged |
| ActionGrid.EmptyQueryKeepsAll | src/components/action-plan/action-grid.tsx:42-60 | with the initial empty search and both dropdowns on "All", the filtered list equals `data` |
| ActionGrid.FilterAppend | src/components/action-plan/action-grid.tsx:51 | filtering a concatenation filters each part |
| ActionGrid.PageRows | src/components/action-plan/action-grid.tsx:62 | a page never holds more than 15 rows |
| ActionGrid.PageIsWindow | src/components/action-plan/action-grid.tsx:62 | page p is exactly the rows at positions (p-1)·15 up to p·15 of the filtered list, cut at its end |
| ActionGrid.ShowingCountsPage | src/components/action-plan/action-grid.tsx:276 | "Showing x–y": x = (p-1)·15+1 and y = min(p·15, n) are the 1-based positions of the rows on the page when it has rows |
| ActionGrid.ShowingFrom | src/components/action-plan/action-grid.tsx:276 | from page 1 on, x is at least 1 and one more than a multiple of 15 |
| ActionGrid.ShowingTo | src/components/action-plan/action-grid.tsx:276 | y never exceeds the number of filtered rows, and x..y spans at most 15 rows |
| ActionGrid.PreviousDisabled | src/components/action-plan/action-grid.tsx:278 | Previous is disabled iff the label starts at row 1 |
| ActionGrid.NextDisabled | src/components/action-plan/action-grid.tsx:279 | Next is disabled iff the label ends at the last filtered row |
| ActionGrid.NextEnabledIffNextPageHasRows | src/components/action-plan/action-grid.tsx:279 | Next is enabled iff the following page has rows |
| ActionGrid.UpdateRows | src/components/action-plan/action-grid.tsx:64-72 | an update keeps the row count, leaves rows with another id untouched, sets the field on rows with the id, and changes no other field |
| ActionGrid.SaveRows | src/components/action-plan/action-grid.tsx:99 | saving keeps the row count and order, sets `isNew` to false everywhere, and keeps every other field |
| ActionGrid.SaveIdempotent | src/components/action-plan/action-grid.tsx:96-101 | saving twice is saving once |
| ActionGrid.SavedRowMatchesFalse | src/components/action-plan/action-grid.tsx:52-54 | a row whose `isNew` is false is found by the term "false" |
| ActionGrid.SavedRowsMatchFalse | src/components/action-plan/action-grid.tsx:52-54 | after a save, the search term "false" finds every row, because `isNew` is searched |
| ActionGrid.PrependedRowFilter | src/components/action-plan/action-grid.tsx:92 | a prepended row heads the filtered list when it matches, and leaves it unchanged otherwise |
| ActionGrid.NewRow | src/components/action-plan/action-grid.tsx:75-91 | the new row carries the given id and date, status not_started, `isNew` true, and passes the default filters |
| ActionGrid.NewRowLeadsFirstPage | src/components/action-plan/action-grid.tsx:74-94 | with the default filters, a new row is the first row of page 1 |
| ActionGrid.InitialDataRows | src/components/action-plan/action-grid.tsx:30-36 | `INITIAL_DATA` has five rows with ids "1" to "5" in order, each with a planner level and none flagged new |
| ActionGrid.ActionPlanGrid.constructor | src/components/action-plan/action-grid.tsx:40-47 | the initial state: `INITIAL_DATA`, nothing unsaved, empty search, both filters "All", page 1 |
| ActionGrid.ActionPlanGrid.FilteredData | src/components/action-plan/action-grid.tsx:50-60 | `filteredData` is no longer than `data`, holds exactly the rows that match the current query, and is `data` itself for the initial query |
| ActionGrid.ActionPlanGrid.PaginatedData | src/components/action-plan/action-grid.tsx:62 | `paginatedData` holds at most 15 rows, the ones of the current page in the filtered list |
| ActionGrid.ActionPlanGrid.SetSearchTerm | src/components/action-plan/action-grid.tsx:118 | typing a search sets the term and changes nothing else, the page included |
| ActionGrid.ActionPlanGrid.SetFilterProcess | src/components/action-plan/action-grid.tsx:108 | choosing a process sets the filter and changes nothing else, the page included |
| ActionGrid.ActionPlanGrid.SetFilterTL | src/components/action-plan/action-grid.tsx:112 | choosing a team leader sets the filter and changes nothing else, the page included |
| ActionGrid.ActionPlanGrid.HandleUpdate | src/components/action-plan/action-grid.tsx:64-72 | `handleUpdate` replaces `data` by the updated rows, keeps their count, sets the unsaved flag and changes nothing else |
| ActionGrid.ActionPlanGrid.HandleAddRow | src/components/action-plan/action-grid.tsx:74-94 | adds exactly one row at index 0 with the source's defaults (not_started, "OTIF", "JUNIOR", `isNew` true, the given id and date); the old rows follow in order; sets the unsaved flag |
| ActionGrid.ActionPlanGrid.HandleSave | src/components/action-plan/action-grid.tsx:96-101 | clears the unsaved flag and replaces `data` by the saved rows, nothing else changes |
| ActionGrid.ActionPlanGrid.PreviousPage | src/components/action-plan/action-grid.tsx:278 | Previous goes back one page unless on page 1; the page stays ≥ 1 and in range |
| ActionGrid.ActionPlanGrid.NextPage | src/components/action-plan/action-grid.tsx:279 | Next advances only while p·15 < n; a page reached this way has rows, and the page stays in range |
| EditableCell.Mount | src/components/action-plan/editable-cell.tsx:17-18 | a cell starts not editing, with its local value equal to the prop |
| EditableCell.HandleBlur | src/components/action-plan/editable-cell.tsx:31-36 | `handleBlur` leaves editing, keeps value and prop, and calls `onSave(value)` iff the value differs from the prop |
| EditableCell.Step | src/components/action-plan/editable-cell.tsx:31-47 | one event calls `onSave` at most once, and only on a commit event while editing, with a local value that differs from the prop; only a new prop changes the prop; only typing, Escape and a new prop change the local value |
| EditableCell.ClickEntersEditing | src/components/action-plan/editable-cell.tsx:106 | clicking the display enters editing and keeps the value |
| EditableCell.BlurSavesIffChanged | src/components/action-plan/editable-cell.tsx:31-36 | blur leaves editing and calls `onSave(value)` exactly once iff the value differs from the prop, otherwise not at all |
| EditableCell.EscapeReverts | src/components/action-plan/editable-cell.tsx:43-46 | Escape restores the prop value, leaves editing and saves nothing |
| EditableCell.EnterCommitsUnlessTextarea | src/components/action-plan/editable-cell.tsx:39-42 | Enter acts exactly as blur unless the cell is a textarea, where it changes nothing |
| EditableCell.ChangeNeverSaves | src/components/action-plan/editable-cell.tsx:92 | typing replaces the local value with the typed string and never saves |
| EditableCell.PropChangeResyncs | src/components/action-plan/editable-cell.tsx:21-23 | a new prop value is copied into the local value; editing mode is kept |
| EditableCell.NoCommitNoSave | src/components/action-plan/editable-cell.tsx:31-47 | a sequence of events without blur and without Enter outside a textarea never calls `onSave` |
| EditableCell.SavesBoundedByCommits | src/components/action-plan/editable-cell.tsx:31-36 | over any sequence of events, `onSave` calls never outnumber the committing events |
| EditableCell.TypingOnlyReplacesValue | src/components/action-plan/editable-cell.tsx:92 | any amount of typing keeps editing, saves nothing and leaves the last typed text |
| EditableCell.EscapeDiscardsTyping | src/components/action-plan/editable-cell.tsx:43-46 | click, any typing, then Escape: back at rest with the prop value, and nothing saved |
| EditableCell.EditSession | src/components/action-plan/editable-cell.tsx:31-36 | click, type, blur saves the text iff it differs from the prop; once the parent passes it back, the cell rests showing it |
| EditableCell.NumberPropAlwaysSavesTypedText | src/components/action-plan/editable-cell.tsx:33 | on a numeric prop, typing and blurring always saves the typed string |
| EditableCell.DisplayContent | src/components/action-plan/editable-cell.tsx:102-115 | the display is always truthy: the (formatted) value when truthy, else the placeholder when non-empty, else "—" |
| EditableCell.Cell.constructor | src/components/action-plan/editable-cell.tsx:17-18 | the first render's state |
| EditableCell.Cell.Click | src/components/action-plan/editable-cell.tsx:106 | the click handler sets editing and is `Step` on a click |
| EditableCell.Cell.Change | src/components/action-plan/editable-cell.tsx:92 | the change handler sets the value while editing and is `Step` on a change |
| EditableCell.Cell.Blur | src/components/action-plan/editable-cell.tsx:31-36 | `handleBlur`'s new state and `onSave` calls are `Step` on a blur |
| EditableCell.Cell.KeyDown | src/components/action-plan/editable-cell.tsx:38-47 | `handleKeyDown`'s new state and `onSave` calls are `Step` on that key |
| EditableCell.Cell.PropChange | src/components/action-plan/editable-cell.tsx:21-23 | the resync effect's new state is `Step` on a new prop |
| PlannerGrid.StrLessIrreflexive | src/components/planner/planner-grid.tsx:41-42 | no string is `<` itself |
| PlannerGrid.StrLessAsymmetric | src/components/planner/planner-grid.tsx:41-42 | string `<` never holds both ways |
| PlannerGrid.StrLessTransitive | src/components/planner/planner-grid.tsx:41-42 | string `<` is transitive |
| PlannerGrid.StrLessTotal | src/components/planner/planner-grid.tsx:41-42 | of two different strings one is `<` the other |
| PlannerGrid.KeyOf | src/components/planner/planner-grid.tsx:41-42 | `row[key]` is a string for the planner and team-leader columns and a number for the seven others |
| PlannerGrid.KeyLessOrder | src/components/planner/planner-grid.tsx:41-42 | on the values of one column, `<` is a strict total order |
| PlannerGrid.Compare | src/components/planner/planner-grid.tsx:38-44 | the comparator returns -1, 0 or 1, and 0 always when there is no sort configuration |
| PlannerGrid.DescNegatesAsc | src/components/planner/planner-grid.tsx:41-42 | the descending comparator is the negated ascending one |
| PlannerGrid.CompareAntisymmetric | src/components/planner/planner-grid.tsx:41-43 | swapping the rows negates the comparator, and equal keys compare as 0 |
| PlannerGrid.LeTotalPreorder | src/components/planner/planner-grid.tsx:38-44 | "compares ≤ 0" is total and transitive, so the comparator is consistent |
| PlannerGrid.Insert | src/components/planner/planner-grid.tsx:38 | one insertion step adds exactly the new row to the others |
| PlannerGrid.SortBy | src/components/planner/planner-grid.tsx:38 | the sorted rows are a permutation of `data` |
| PlannerGrid.InsertSorted | src/components/planner/planner-grid.tsx:38-44 | inserting into comparator-ordered rows keeps them ordered |
| PlannerGrid.SortBySorted | src/components/planner/planner-grid.tsx:38-44 | the sorted rows are ordered by the comparator |
| PlannerGrid.SortedByKey | src/components/planner/planner-grid.tsx:38-44 | ascending, the column never decreases down the rows; descending, it never increases |
| PlannerGrid.NoConfigKeepsOrder | src/components/planner/planner-grid.tsx:39 | with no sort configuration the rows keep `data`'s order |
| PlannerGrid.NextSortConfig | src/components/planner/planner-grid.tsx:46-52 | `handleSort(k)` selects column k, descending iff the current configuration is k ascending |
| PlannerGrid.SortToggles | src/components/planner/planner-grid.tsx:46-52 | two clicks on one header always give both directions; a click on another column starts ascending |
| PlannerGrid.Reduce | src/components/planner/planner-grid.tsx:221 | folding a column of non-negative values never goes below the start value, and a zero column leaves it unchanged |
| PlannerGrid.ReduceIsSum | src/components/planner/planner-grid.tsx:221 | `reduce((acc, curr) => acc + f(curr), acc0)` is `acc0` plus the sum of `f` |
| PlannerGrid.SumAppend | src/components/planner/planner-grid.tsx:221 | the sum over a concatenation is the sum of the parts |
| PlannerGrid.SumPermutation | src/components/planner/planner-grid.tsx:221 | a sum does not depend on row order |
| PlannerGrid.FooterOf | src/components/planner/planner-grid.tsx:218-224 | the footer counts every planner, and its two totals are non-negative when their columns are |
| PlannerGrid.FooterIsCountAndSums | src/components/planner/planner-grid.tsx:218-224 | the footer is the number of planners and the sums of `suppliersOtifLow` and `opportunityValue`; the sorted rows give the same footer |
| PlannerGrid.CriticalTotalPositiveIff | src/components/planner/planner-grid.tsx:221 | with no negative counts, "Critical OTIF" is positive iff some planner's badge is critical |
| PlannerGrid.OtifCritical | src/components/planner/planner-grid.tsx:152 | the OTIF badge is critical iff the `suppliersOtifLow` column is `>` 0 under the column's `<` |
| PlannerGrid.ShortageAlert | src/components/planner/planner-grid.tsx:186 | the shortage count is red iff the `shortages` column is `>` 5 under the column's `<` |
| PlannerGrid.HighOpportunity | src/components/planner/planner-grid.tsx:205 | the "High Opportunity" dot shows iff the `opportunityValue` column is `>` 1000000 under the column's `<` |
| PlannerGrid.AboveThresholdLeads | src/components/planner/planner-grid.tsx:152 | sorted descending on a numeric column, rows above a threshold come before all others |
| PlannerGrid.CriticalOtifLeads | src/components/planner/planner-grid.tsx:152 | sorted descending by "OTIF < 95%", every row whose badge is critical (> 0) comes before every row whose badge is not |
| PlannerGrid.ShortageAlertsLead | src/components/planner/planner-grid.tsx:186 | sorted descending by "Shortages", every red count (> 5) comes before every other |
| PlannerGrid.HighOpportunitiesLead | src/components/planner/planner-grid.tsx:205 | sorted descending by "Opportunity", every row with the "High Opportunity" dot (> 1000000) comes before every row without it |
| PlannerGrid.Heads | src/components/planner/planner-grid.tsx:120 | `map(n => n[0])` gives each piece's first character, nothing for an empty piece |
| PlannerGrid.Initials | src/components/planner/planner-grid.tsx:120 | the initials have at most 2 characters |
| PlannerGrid.WordStarts | src/components/planner/planner-grid.tsx:120 | the reference: each non-space character of the name that is first or after a space |
| PlannerGrid.HeadsOfSplit | src/components/planner/planner-grid.tsx:120 | split, first characters, join: exactly the word-start characters |
| PlannerGrid.HeadsOfSplitTail | src/components/planner/planner-grid.tsx:120 | the same for the pieces after the first |
| PlannerGrid.InitialsAreFirstTwoWordStarts | src/components/planner/planner-grid.tsx:120 | the initials are the first two word-start characters of the name, never a space |
| PlannerGrid.PlannerGridView.constructor | src/components/planner/planner-grid.tsx:27 | no sort configuration at first, so the rows show in `data`'s order |
| PlannerGrid.PlannerGridView.SortedData | src/components/planner/planner-grid.tsx:38-44 | `sortedData` is a permutation of `data`, ordered by the current comparator |
| PlannerGrid.PlannerGridView.HandleSort | src/components/planner/planner-grid.tsx:46-52 | sets the configuration `NextSortConfig` gives; the displayed rows are then sorted and a permutation of `data` |
| KpiCard.IsPositive | src/components/dashboard/kpi-card.tsx:25 | `isPositive` holds iff the trend is defined and > 0 |
| KpiCard.IsNegative | src/components/dashboard/kpi-card.tsx:26 | `isNegative` holds iff the trend is defined and < 0 |
| KpiCard.IsNeutral | src/components/dashboard/kpi-card.tsx:27 | `isNeutral` holds iff the trend is undefined or 0 |
| KpiCard.ExactlyOneSign | src/components/dashboard/kpi-card.tsx:25-27 | exactly one of positive, negative and neutral holds for every trend, absent included |
| KpiCard.TrendColor | src/components/dashboard/kpi-card.tsx:37 | emerald iff positive, rose iff negative, slate iff neutral |
| KpiCard.Abs | src/components/dashboard/kpi-card.tsx:65 | `Math.abs` is non-negative and equal to the trend or its negation |
| KpiCard.SignAndMagnitudeDetermineTrend | src/components/dashboard/kpi-card.tsx:62-65 | the sign flags and the magnitude shown give back the trend |
| KpiCard.Guarded | src/components/dashboard/kpi-card.tsx:62-64 | `{flag && <Icon/>}` renders the icon when the flag is truthy and nothing when it is `false` |
| KpiCard.TrendRowAsWritten | src/components/dashboard/kpi-card.tsx:54-66 | the trend row is rendered iff the trend is defined |
| KpiCard.ZeroTrendShowsStrayZeros | src/components/dashboard/kpi-card.tsx:62-63 | as written, a zero trend renders "0", "0", the dash and "0%" |
| KpiCard.TrendIcon | src/components/dashboard/kpi-card.tsx:62-64 | arrow up iff positive, arrow down iff negative, dash iff neutral |
| KpiCard.TrendRow | src/components/dashboard/kpi-card.tsx:54-66 | rendered iff the trend is defined; exactly one piece is an icon, it comes first and is the sign's icon, then the magnitude and "%" |
| KpiCard.ZeroTrendShowsDash | src/components/dashboard/kpi-card.tsx:62-65 | as intended, a zero trend shows only the dash and "0%" |
| KpiCard.TrendRowAgreesOffZero | src/components/dashboard/kpi-card.tsx:54-66 | for every trend except 0 the written row is the intended one |
| KpiCard.StylesTotal | src/components/dashboard/kpi-card.tsx:30-35 | the `statusStyles` table has an entry for each of the four statuses |
| KpiCard.BorderClass | src/components/dashboard/kpi-card.tsx:22-42 | the border is one of the `statusStyles` classes, and the neutral one exactly when the status is absent or "neutral" |
| KpiCard.BorderClassDistinct | src/components/dashboard/kpi-card.tsx:22-42 | without a status the border is the neutral "border-l-slate-500"; the four statuses have four different borders |
| RankingList.PointsFor | src/components/ranking/ranking-list.tsx:24-25 | points are ten per opened action and five times that per completed one, so always a multiple of 10 and never negative for non-negative counts |
| RankingList.RankingDataConsistent | src/components/ranking/ranking-list.tsx:23-31 | every entry's points are 50·completed + 10·opened, ranks are the 1-based positions, and points strictly decrease |
| RankingList.PodiumEntries | src/components/ranking/ranking-list.tsx:96 | the podium receives entries 0, 1 and 2, in order |
| RankingList.Leaderboard | src/components/ranking/ranking-list.tsx:114 | `slice(3)` lists the entries from index 3 on, in order |
| RankingList.PodiumAndLeaderboardCover | src/components/ranking/ranking-list.tsx:96-114 | podium and leaderboard together list every entry once, in order |
| RankingList.PodiumLayout | src/components/ranking/ranking-list.tsx:41-87 | the podium needs three planners and shows three distinct ranks 1..3, each with the planner at that rank: second place on the left, the winner in the middle, third place on the right |
| RankingList.PodiumOutscoresLeaderboard | src/components/ranking/ranking-list.tsx:96-114 | with strictly decreasing points, the centre outscores the left, which outscores the right, and every podium planner outscores every leaderboard planner |
| RankingList.RankingPage | src/components/ranking/ranking-list.tsx:96-114 | for the ranking table: Carlos Mendes, Ana Silva, Elena Torres on the podium, and ranks 4 to 7 in the leaderboard |

## Left out

- Locale formatting is not modelled: `formatCurrency` in the planner grid and `toLocaleString` in the ranking go through `Intl`. The model keeps the numbers they format.
- The random id and the date in `handleAddRow` are not generated here. They are parameters of `HandleAddRow`.
- `handleSave` only clears the local `isNew` flags and the unsaved flag after a 500 ms timer; nothing is persisted. The timer is not modelled: the save is one atomic step, with no timing or interleaving.
- The `otif` percentages are reals and play no part in any rule. The KPI trend is a real, and NaN is not modelled.
- Integers are unbounded. The source's numbers are doubles, and no count in these rules reaches the range where doubles lose precision.
- The planner columns (counts and the money values `leftoversValue` and `opportunityValue`) and the numeric props of an editable cell are doubles in the source and may be fractional. The model restricts them to integers, so fractional values are not covered.
- JSX, CSS class strings other than the named ones, icons, focus handling and React's scheduling of renders and effects are not modelled.
- Case folding in `toLowerCase` covers ASCII and Latin-1 capitals only. Other scripts are left as they are.
- String `<` compares `char` values, which are Unicode scalar values. JavaScript compares UTF-16 code units, and the two orders differ only for characters above U+FFFF against characters in U+E000–U+FFFF.
- PlannerGrid.Initials: `n[0]` and `substring(0, 2)` work on UTF-16 code units, the model on Unicode scalar values. For a name whose word starts with a character above U+FFFF, the source takes half a surrogate pair where the model takes the whole character.
- PlannerGrid.SortBy: the order of rows that compare equal is not stated. The insertion sort keeps them in input order, as `Array.prototype.sort` must since ECMA-262's 2019 edition, but no lemma proves it.
- ActionGrid.ActionPlanGrid.HandleUpdate: the value of `handleUpdate` is typed by its field, the TypeScript `any` is not. A value of another type stored under a field is not modelled.
- ActionGrid.ActionPlanGrid.constructor: does not state the filtered list of the initial data. Evaluating the filter on the five literal rows is too costly for the verifier.
- PlannerGrid: sorting is modelled on the values of the copy `[...data]`, not as an in-place array sort. `data` is a `const` of the view, so it is never changed.
- Sort keys: only the nine column headers can be sorted on. `handleSort` accepts any key of the row type, but `id`, `plannerAvatar` and `plannerLevel` have no header. An absent avatar would also make `<` inconsistent.
- EditableCell: Escape unmounts the focused input. A blur that a browser might fire on unmount is not modelled.
- EditableCell: `select` cells without options render an input. Their behaviour is the same and is not distinguished.
- The login page, the sidebar, the trend chart and the root layout are not modelled. They are authentication, navigation and chart wiring around external libraries and contain none of these rules.

## Findings

| source | as written | input that shows it | evidently intended | confidence | as-written member | corrected member |
|---|---|---|---|---|---|---|
| src/components/dashboard/kpi-card.tsx:62-63 | `isPositive = trend && trend > 0` is the number 0 when the trend is 0, and `{0 && <ArrowUp/>}` renders the text "0"; the same holds for `isNegative` | `trend = 0` | the row shows only the dash icon and "0%" | not executed | KpiCard.ZeroTrendShowsStrayZeros | KpiCard.TrendRow |
