# ExpenseManager, modelled in Dafny

ExpenseManager is a small Next.js expense tracker. Each purchase receipt is
an `Entry` with store details, money totals, a list of `LineItem`s and an
`approved` flag. This project models the parts of it that compute
something:

- **The filter-query builder.** `GET /api/entries` turns five optional
  query parameters into one parameterised SQL statement and its positional
  parameter list. `EntriesRoute.BuildQuery` is the handler's imperative body:
  - `sql` grows with `+=`;
  - `params` grows with `push`;
  - the `paramIndex` counter runs alongside them.

  It is proved equal to a specification made of a list of `Condition`s
  (column, operator, bound value), rendered with placeholders numbered from
  `$1`.
- **The filter bar.**
  - The filter record and its handlers.
  - The date-range presets. "Today" is passed in as the year and 0-based
    month that `getFullYear()` and `getMonth()` return.
  - The calendar arithmetic behind `new Date(y, m + 1, 0).getDate()`.
  - The zero-padded `YYYY-MM-DD` strings.
- **The home page.**
  - The query string built from the filters. It is proved to reach the
    route as exactly the non-empty fields.
  - The replace-by-id after a save.
  - Approve-as-save-with-`approved = true`.
  - The page's four state cells, as class `HomePage.HomeState`.
- **The line-items editor.** Update one item, append the default item,
  remove by index, and the expanded-row toggle.
- **The entry detail panel.**
  - `line_items` is normalised when an entry arrives: `{data: xs}` becomes
    `xs`.
  - `line_items` is wrapped when edited: an array `xs` is stored as
    `{data: xs}`.
  - The round trip between the two.
  - The panel's state cells, including the approve-button guard.
- **The create-entry dialog.** Its default form, one-field updates and
  submit.

Money is `real`. Dates are the strings the UI carries. A `fetch` response
is a parameter of the method that consumes it.

Module layout, one module per source file, plus two helper modules (`Wrappers` and `Text`) that correspond to no source file:

| Module | Contents |
|---|---|
| `Wrappers` | `Option` |
| `Text` | `String(n)`, `padStart(2, '0')` and JavaScript's string `<=` |
| `Types` | `types/index.ts`, with field get/set by key |
| `EntriesRoute` | the filter-query builder |
| `FilterBar` | the filter bar |
| `HomePage` | the home page |
| `LineItemsEditor` | the line-items editor |
| `EntryDetail` | the entry detail panel |
| `EntryModal` | the create-entry dialog |

Two behaviours of the code that a reader might not expect:

- The status select offers All (`""`), Approved (`"true"`) and Pending
  (`"false"`) (components/FilterBar.tsx:138-140). The route adds the
  approval clause for any value that is present, even `""`, and binds true
  only for the exact text `"true"` (app/api/entries/route.ts:35-39). See
  `EntriesRoute.ApprovedBindsTrueOnlyForTrue`.
- The detail panel writes `{data: xs}` on every line-item edit
  (components/EntryDetail.tsx:55-57). It normalises back to a bare array
  only when the entry prop arrives (components/EntryDetail.tsx:43-50). See
  `EntryDetail.StoredValue` and `EntryDetail.EditThenNormalize`.

## Model

| member | source | states |
|---|---|---|
| Types.Get | nextapp/types/index.ts:11-27 | reading a field of an entry gives a value of that field's kind |
| Types.Set | nextapp/types/index.ts:11-27 | `{...e, [f]: v}` sets field `f` to `v`; every other field, `id` and `created_at` are unchanged |
| Types.EntryExtensionality | nextapp/types/index.ts:11-27 | two entries with the same `id`, `created_at` and field values are equal |
| Types.ZeroValue | nextapp/components/EntryModal.tsx:33-47 | each field's initial form value (`''`, `0`, `[]`, `false`) has the field's kind |
| Types.GetItem | nextapp/types/index.ts:1-9 | reading a line-item field gives a value of that field's kind |
| Types.SetItem | nextapp/components/LineItemsEditor.tsx:16 | `{...item, [f]: v}` sets `f` to `v` and keeps the item's other six fields |
| Types.EditorItems | nextapp/components/EntryDetail.tsx:235 | `Array.isArray(li) ? li : []`: the list for a bare array, `[]` for a wrapper or a missing field |
| Text.NatToString | nextapp/components/FilterBar.tsx:23 | `String(n)` is a non-empty string of decimal digits, one digit exactly when n < 10 |
| Text.NatToStringNoLeadingZero | nextapp/components/FilterBar.tsx:23 | `String(n)` has no leading zero: it starts with `'0'` only for n = 0 |
| Text.NatToStringRoundTrip | nextapp/components/FilterBar.tsx:23 | reading back the digits of `String(n)` gives n |
| Text.IntToString | nextapp/components/FilterBar.tsx:37-39 | `${year}` is non-empty; it is `String(n)` of the year's magnitude, preceded by `-` for a negative year |
| Text.IntToStringRoundTrip | nextapp/components/FilterBar.tsx:37-39 | `${year}` denotes the year: it starts with `-` exactly when the year is negative, and the digits after it read back as the year's magnitude |
| Text.PadStart2 | nextapp/components/FilterBar.tsx:23 | `padStart(2, '0')` leaves strings of length ≥ 2 alone; otherwise it prefixes zeros to length 2 and keeps the original as the suffix |
| Text.TwoDigitsSpec | nextapp/components/FilterBar.tsx:23-25 | the padded month or day is exactly two digits denoting the number |
| Text.LexLeCommonPrefix | nextapp/components/FilterBar.tsx:22-39 | a shared prefix (the year, the month) does not change how two date strings compare |
| EntriesRoute.Conditions | nextapp/app/api/entries/route.ts:17-39 | at most five comparisons; which ones, and in what order, is stated by `FilterBindings` and `ClauseOrder` |
| EntriesRoute.QueryTextFrame | nextapp/app/api/entries/route.ts:13-41 | whatever the filters, `QueryText` starts with `SELECT * FROM public.chrisexp WHERE 1=1` and ends with ` ORDER BY date_of_purchase DESC, id DESC` |
| EntriesRoute.QueryParams | nextapp/app/api/entries/route.ts:14-39 | one parameter per comparison, so at most five; `PlaceholderBinding` states which value sits at each position |
| EntriesRoute.Values | nextapp/app/api/entries/route.ts:14-39 | one bound parameter per comparison |
| EntriesRoute.RenderAppend | nextapp/app/api/entries/route.ts:13-39 | rendering two runs of comparisons one after the other continues the placeholder numbering |
| EntriesRoute.ValuesAppend | nextapp/app/api/entries/route.ts:14-39 | the parameters of two runs of comparisons are the two parameter lists concatenated |
| EntriesRoute.OneStep | nextapp/app/api/entries/route.ts:14-39 | appending one clause text `… $k` (with k = the length of `params` + 1) and one pushed value keeps `sql` and `params` describing the same comparisons |
| EntriesRoute.StoreStep | nextapp/app/api/entries/route.ts:17-21 | the store-name block's literal text and pattern `%name%` are its comparison's rendering and value |
| EntriesRoute.DateStep | nextapp/app/api/entries/route.ts:23-27 | the exact-date block's literal text and raw date are its comparison's rendering and value |
| EntriesRoute.RangeStep | nextapp/app/api/entries/route.ts:29-33 | the range block's text uses `$k` for `>=` and `$(k+1)` for `<=`, bound to (from, to) in that order |
| EntriesRoute.ApprovedStep | nextapp/app/api/entries/route.ts:35-39 | the approval block's text and the boolean `approved === 'true'` are its comparison's rendering and value |
| EntriesRoute.Skip | nextapp/app/api/entries/route.ts:17-39 | a block whose guard fails leaves `sql` and `params` as they were |
| EntriesRoute.BuildQuery | nextapp/app/api/entries/route.ts:13-41 | the handler's loop-free imperative body builds exactly the statement `QueryText(q)` and the parameter list `QueryParams(q)`, and its final `paramIndex` is the length of `params` + 1, one past the last placeholder |
| EntriesRoute.RenderAt | nextapp/app/api/entries/route.ts:13-39 | the i-th comparison of a rendering starting at `$k` carries placeholder `$(k + i)` |
| EntriesRoute.ValuesAt | nextapp/app/api/entries/route.ts:14-39 | position i of the parameter list holds the i-th comparison's value |
| EntriesRoute.PlaceholderBinding | nextapp/app/api/entries/route.ts:14-39 | the i-th clause of the statement uses `$(i + 1)`, and `params[i]` is the value pushed with that clause, so every placeholder lies in 1..the length of `params` |
| EntriesRoute.BoundAppend | nextapp/app/api/entries/route.ts:14-39 | the values bound to one column and operator distribute over concatenation |
| EntriesRoute.BoundShort | nextapp/app/api/entries/route.ts:29-33 | the values bound by one or two comparisons, position by position |
| EntriesRoute.BoundSplit | nextapp/app/api/entries/route.ts:17-39 | the bindings of a request are those of its four blocks, in order |
| EntriesRoute.BoundStore | nextapp/app/api/entries/route.ts:17-21 | the store block binds only `store_name ILIKE`, and only for a non-empty name |
| EntriesRoute.BoundDate | nextapp/app/api/entries/route.ts:23-27 | the date block binds only `date_of_purchase =`, and only for a non-empty date |
| EntriesRoute.BoundRange | nextapp/app/api/entries/route.ts:29-33 | the range block binds `>=` to from and `<=` to to, only when both are non-empty |
| EntriesRoute.BoundApproved | nextapp/app/api/entries/route.ts:35-39 | the approval block binds `approved =` whenever the parameter is present |
| EntriesRoute.StoreBinding | nextapp/app/api/entries/route.ts:17-21 | a request binds `store_name ILIKE` to `"%" + name + "%"` exactly when the name is non-empty, and to nothing otherwise |
| EntriesRoute.DateBinding | nextapp/app/api/entries/route.ts:23-27 | a request binds `date_of_purchase =` to the raw date exactly when it is non-empty |
| EntriesRoute.RangeFromBinding | nextapp/app/api/entries/route.ts:29-33 | a request binds `date_of_purchase >=` to the `date_from` text exactly when both ends of the range are non-empty |
| EntriesRoute.RangeToBinding | nextapp/app/api/entries/route.ts:29-33 | a request binds `date_of_purchase <=` to the `date_to` text exactly when both ends of the range are non-empty |
| EntriesRoute.ApprovedBinding | nextapp/app/api/entries/route.ts:35-39 | a request binds `approved =` to `text == "true"` exactly when the parameter is present |
| EntriesRoute.FilterBindings | nextapp/app/api/entries/route.ts:17-39 | the five filters' bindings at once, as an independent statement per filter |
| EntriesRoute.ApprovedBindsTrueOnlyForTrue | nextapp/app/api/entries/route.ts:35-39 | a present `approved` binds true iff its text is exactly `"true"`: `""`, `"false"` and `"TRUE"` bind false |
| EntriesRoute.ClauseOrder | nextapp/app/api/entries/route.ts:13-41 | the clauses appear in the fixed order store, date, range-from, range-to, approved, each at most once, so the length of `params` ≤ 5 |
| EntriesRoute.NoStrayClause | nextapp/app/api/entries/route.ts:17-39 | every clause is one of the five per-filter comparisons: the clause count is the sum of the five bindings `FilterBindings` states |
| EntriesRoute.NoFilters | nextapp/app/api/entries/route.ts:13-41 | with no usable filter the statement is the `WHERE 1=1` prefix followed by the ORDER BY suffix, and nothing is bound |
| EntriesRoute.OneSidedRangeIgnored | nextapp/app/api/entries/route.ts:29-33 | only one end of the date range gives the same statement and parameters as neither |
| FilterBar.HandleChange | nextapp/components/FilterBar.tsx:46-48 | the named filter field becomes the value; the other four are unchanged |
| FilterBar.HandleReset | nextapp/components/FilterBar.tsx:60-68 | every filter field is `''` |
| FilterBar.LastDayOfMonth | nextapp/components/FilterBar.tsx:24 | day 0 of the following month is between 28 and 31; `LastDayIsDaysInMonth` ties it to the Gregorian table |
| FilterBar.LastDayIsDaysInMonth | nextapp/components/FilterBar.tsx:24 | day 0 of the next month is the Gregorian month length (28..31), with February 29 exactly in leap years of the year `Date` reads |
| FilterBar.DateTextFormat | nextapp/components/FilterBar.tsx:23-25 | a date string is the year, `-`, the two-digit month, `-` and the two-digit day, six characters after the year |
| FilterBar.MonthRange | nextapp/components/FilterBar.tsx:22-35 | both ends of a month's range are non-empty; `MonthRangeDates` states that they are day 1 and the last day of that month, in order |
| FilterBar.GetDateRange | nextapp/components/FilterBar.tsx:16-43 | the range is non-empty at each end exactly when the key is one of the four presets; the preset lemmas below state each case |
| FilterBar.CurrentMonthRange | nextapp/components/FilterBar.tsx:22-27 | "This Month" is day 01 to the month's last Gregorian day of the current month |
| FilterBar.PreviousMonthRange | nextapp/components/FilterBar.tsx:28-35 | "Last Month" is the current-month range of December of year − 1 in January, otherwise of month − 1 |
| FilterBar.YearEnds | nextapp/components/FilterBar.tsx:37 | January 1 and December 31 as date strings are the literals `Y-01-01` and `Y-12-31` |
| FilterBar.YearRanges | nextapp/components/FilterBar.tsx:36-39 | "This Year" is January 1 to December 31; "Last Year" is the same range for year − 1 |
| FilterBar.UnknownRangeIsEmpty | nextapp/components/FilterBar.tsx:40-41 | any other key gives `from = ''` and `to = ''` |
| FilterBar.MonthRangeOrdered | nextapp/components/FilterBar.tsx:22-35 | a month range's start sorts no later than its end as text |
| FilterBar.MonthRangeDates | nextapp/components/FilterBar.tsx:22-35 | a month range is day 1 to a last day in 1..31 of one month, and is ordered as text |
| FilterBar.YearRangeDates | nextapp/components/FilterBar.tsx:36-37 | a year range is 1 January to 31 December, and is ordered as text |
| FilterBar.NamedRangeOrdered | nextapp/components/FilterBar.tsx:16-43 | every named preset is a range within one year whose start (month, day) is no later than its end, both as dates and lexicographically |
| FilterBar.HandleDateRangeClick | nextapp/components/FilterBar.tsx:50-58 | a preset sets `date_from`/`date_to` from the range, clears `date_of_purchase`, and keeps `store_name` and `approved` |
| HomePage.UrlParams | nextapp/app/page.tsx:25-30 | at most five pairs, none with an empty value; `RequestCarriesFilters` and `UrlParamsOrder` state which pairs and in what order |
| HomePage.LookupPast | nextapp/app/page.tsx:25-30 | looking a key up past an optional pair under another key sees only the rest |
| HomePage.LookupAt | nextapp/app/page.tsx:25-30 | looking a key up at its own pair finds the value when one was appended |
| HomePage.RequestCarriesFilters | nextapp/app/page.tsx:25-30 | the route's five `searchParams.get` reads (`Received`, app/api/entries/route.ts:6-11, each a `LookupParam`, which models `URLSearchParams.get`) see each filter field that is non-empty and nothing for an empty one |
| HomePage.PrependRanked | nextapp/app/page.tsx:25-30 | putting a lower-ranked optional pair in front keeps the keys in increasing order |
| HomePage.UrlParamsOrder | nextapp/app/page.tsx:25-30 | at most five pairs, none with an empty value, with keys in the fixed order store_name, date_of_purchase, date_from, date_to, approved |
| HomePage.UrlParamsKeys | nextapp/app/page.tsx:25-30 | the query string holds nothing but the filters: every key is one of the five filter keys, and there is one pair per non-empty field |
| HomePage.StatusFilterQuery | nextapp/app/page.tsx:30 | the "All" status (empty `approved`) adds no approval clause; any other status adds one bound to `status == "true"` |
| HomePage.DatePresetQuery | nextapp/components/FilterBar.tsx:50-58 | after a preset click the route filters by the preset's range and not by a single date; an unknown key leaves it filtering by neither |
| HomePage.ReplaceById | nextapp/app/page.tsx:57 | the list keeps its length; `ReplaceByIdSpec` states which entries change |
| HomePage.ReplaceByIdSpec | nextapp/app/page.tsx:57 | `entries.map(e => e.id === saved.id ? saved : e)` keeps the length, turns exactly the entries with the saved id into `saved` and leaves every other entry in place |
| HomePage.ReplaceByIdIdempotent | nextapp/app/page.tsx:57 | replacing by the same saved entry twice is replacing once |
| HomePage.HomeState.constructor | nextapp/app/page.tsx:10-19 | no entries, nothing selected, all five filters `''`, loading |
| HomePage.HomeState.SetFilters | nextapp/app/page.tsx:74 | the filter bar's `setFilters` replaces the filters and nothing else |
| HomePage.HomeState.Select | nextapp/app/page.tsx:84-96 | `onSelect` / `onEntryChange` set the selection and nothing else |
| HomePage.HomeState.BeginFetch | nextapp/app/page.tsx:21-32 | loading is set and the request's query string is the one built from the current filters |
| HomePage.HomeState.EndFetch | nextapp/app/page.tsx:33-40 | a fetched list replaces the entries and clears the selection; a throw leaves both; loading is false afterwards either way |
| HomePage.HomeState.HandleSave | nextapp/app/page.tsx:46-62 | the updated entry is sent; an OK response selects the saved entry and replaces by id; any other outcome changes nothing |
| HomePage.HomeState.HandleApprove | nextapp/app/page.tsx:64-67 | nothing happens without a selection; otherwise the selection is saved with `approved = true` and every other field, `id` and `created_at` identical |
| LineItemsEditor.ItemChange | nextapp/components/LineItemsEditor.tsx:14-18 | same length, items other than i unchanged, and at i only field f changes, to v |
| LineItemsEditor.AddItem | nextapp/components/LineItemsEditor.tsx:20-31 | the list grows by one, the prefix is the old list, the last item is the new item |
| LineItemsEditor.NewItemDefaults | nextapp/components/LineItemsEditor.tsx:21-29 | the constant `NewItem`, the item "+ Add Line Item" appends, has name `''`, price, discount, net price and tax 0, quantity 1, and included true |
| LineItemsEditor.RemoveItem | nextapp/components/LineItemsEditor.tsx:33-35 | `filter((_, i) => i !== index)` is the list without position `index` when it lies in the list, and the list itself otherwise |
| LineItemsEditor.DropIndexSpec | nextapp/components/LineItemsEditor.tsx:34 | filtering by `i !== index` over positions from `start` drops exactly the item at `index`, if it lies in the list |
| LineItemsEditor.RemoveItemSpec | nextapp/components/LineItemsEditor.tsx:33-35 | removing drops exactly position `index` and keeps the others in order; the length shrinks by one iff `index` is in range; otherwise the list is unchanged |
| LineItemsEditor.RemoveAfterAdd | nextapp/components/LineItemsEditor.tsx:20-35 | removing at the old length right after an add gives back the original list |
| LineItemsEditor.EditorState.constructor | nextapp/components/LineItemsEditor.tsx:12 | no row is expanded at first |
| LineItemsEditor.EditorState.ToggleRow | nextapp/components/LineItemsEditor.tsx:44 | clicking the expanded row collapses it; clicking any other row expands that row |
| EntryDetail.Normalize | nextapp/components/EntryDetail.tsx:43-50 | `{data: xs}` becomes `xs`, a wrapper without data becomes `[]`; a bare array or missing field, and every other field, are unchanged |
| EntryDetail.NormalizeIdempotent | nextapp/components/EntryDetail.tsx:45-48 | normalising twice is normalising once |
| EntryDetail.StoredValue | nextapp/components/EntryDetail.tsx:52-57 | an array written to `line_items` is stored as `{data: xs}`; every other value is stored as given |
| EntryDetail.DetailUpdate | nextapp/components/EntryDetail.tsx:52-61 | `handleChange` changes only the named field of the local entry, to its stored value |
| EntryDetail.EditThenNormalize | nextapp/components/EntryDetail.tsx:43-61 | normalising the entry produced by a line-items edit gives back the bare list, with every other field as before the edit |
| EntryDetail.EditorShowsNormalizedItems | nextapp/components/EntryDetail.tsx:43-50 | after normalisation the line-items editor receives the wrapper's list, the bare list, or `[]` for a missing field |
| EntryDetail.DetailState.constructor | nextapp/components/EntryDetail.tsx:22-24 | the local entry starts as the prop itself; not saving and not approving |
| EntryDetail.DetailState.EntryChanged | nextapp/components/EntryDetail.tsx:43-50 | a new prop replaces the local entry with its normalised copy |
| EntryDetail.DetailState.HandleChange | nextapp/components/EntryDetail.tsx:52-61 | the local entry becomes the updated entry, which is also passed on to `onEntryChange` |
| EntryDetail.DetailState.BeginSave | nextapp/components/EntryDetail.tsx:63-66 | saving is set and the local entry goes to `onSave` |
| EntryDetail.DetailState.EndSave | nextapp/components/EntryDetail.tsx:67-69 | saving is cleared, whatever `onSave` did |
| EntryDetail.DetailState.BeginApprove | nextapp/components/EntryDetail.tsx:72-75 | approving is set, so `ApproveDisabled` (the `disabled` guard at line 225) holds while the request is out |
| EntryDetail.DetailState.EndApprove | nextapp/components/EntryDetail.tsx:76-78 | approving is cleared; the button stays disabled iff the entry is approved (the guard at line 225) |
| EntryDetail.DetailState.EditorList | nextapp/components/EntryDetail.tsx:235 | the editor receives the local list when it is an array and `[]` otherwise |
| EntryModal.GetForm | nextapp/components/EntryModal.tsx:5-24 | the form has the entry's thirteen editable fields and no `id` or `created_at` |
| EntryModal.FormChange | nextapp/components/EntryModal.tsx:49-51 | the named field becomes the value; every other field is unchanged |
| EntryModal.DefaultForm | nextapp/components/EntryModal.tsx:33-47 | every text field `''`, every money field 0, `line_items` `[]`, `approved` false |
| EntryModal.NumericInputText | nextapp/components/EntryModal.tsx:122 | `e.target.value \|\| '0'`: an empty input becomes `'0'`, any other input passes unchanged, so `parseFloat` never sees an empty string |
| EntryModal.ModalState.constructor | nextapp/components/EntryModal.tsx:33-47 | the form starts as the default form |
| EntryModal.ModalState.HandleChange | nextapp/components/EntryModal.tsx:49-51 | the form becomes the one-field update of the old form |
| EntryModal.ModalState.HandleSubmit | nextapp/components/EntryModal.tsx:53-56 | with Store Name empty the `required` input (line 81) blocks the submit and nothing is sent; otherwise `onSave` receives the current form unchanged |
| EntryModal.ModalState.EditorList | nextapp/components/EntryModal.tsx:185 | the editor receives the form's list when it is an array and `[]` otherwise |
| EntryModal.FormLineItemsEdit | nextapp/components/EntryModal.tsx:184-187 | a line-items edit in the dialog is stored bare, so the editor then shows exactly the edited list |

## Left out

- `nextapp/lib/db.ts` is not part of this model. It holds the connection pool, environment defaults, query timing and logging.
- `nextapp/app/api/image-url/route.ts` is not part of this model. It wraps a presigned-URL call into object storage that is not shown here.
- `nextapp/app/api/entries/[id]/route.ts` is not part of this model: it is CRUD plumbing around the database.
- How PostgreSQL evaluates the statement is not modelled: ILIKE matching, date comparison, ORDER BY. The model covers the `(sql, params)` pair the handler produces, not the rows that come back.
- The route's `catch` branch (a 500 response on a database error) is not modelled, because executing the query is outside the model.
- `nextapp/components/EntryList.tsx` is rendering only, and is not part of this model.
- `parseFloat`, `toFixed` and `new Date(...).toISOString()` are not modelled: they are floating point and timezone-dependent library behaviour. Money is `real`, and `EntryModal.NumericInputText` stops at the text handed to `parseFloat`.
- JSX rendering, `useEffect` scheduling, `async`/`await` interleavings and the image-URL effect of the detail panel are not modelled. The fetch of the list and the detail panel's save and approval are each split into a method before the `await` and a method after it (`HomePage.HomeState.BeginFetch`/`EndFetch`, `EntryDetail.DetailState.BeginSave`/`EndSave`, `EntryDetail.DetailState.BeginApprove`/`EndApprove`). The page's `handleSave` and `handleApprove` are each one method that runs the whole handler at once. In every case the response is a parameter.
- URL percent-encoding of query values is not modelled. Values are assumed to arrive at the route exactly as the page appended them.
- `nextapp/next.config.ts` is configuration only.
- HomePage.HomeState.HandleSave: the save runs as a single step, although `handleSave` awaits twice (page.tsx:48 and 55). The model replaces the saved entry in the list as it stands when the method runs. The source maps the `entries` its closure captured before the PUT (page.tsx:57), so a list that changes while the PUT is in flight (a refetch after a filter change, say) is not modelled. HomePage.HomeState.HandleApprove, which awaits `handleSave` (page.tsx:66), inherits this.
- HomePage.HomeState.EndFetch: a non-OK response whose JSON error object gets stored as `entries` is not modelled; `response` is either a list of entries or a throw (`None`).
- LineItemsEditor.ItemChange: requires an index inside the list. The editor only calls it for a rendered row; JavaScript's sparse-array behaviour for an out-of-range index is not modelled.
- Types.Set, Types.SetItem, LineItemsEditor.ItemChange, EntryDetail.DetailUpdate, EntryDetail.DetailState.HandleChange, EntryModal.FormChange and EntryModal.ModalState.HandleChange: require the value to have the field's kind (`Fits`, or `FitsItem` for a line item). The TypeScript callers always pass one (the inputs of EntryDetail.tsx:95-236 and LineItemsEditor.tsx:82-158 are typed per field); writing a value of the wrong kind into a field is not modelled.
- FilterBar.LastDayOfMonth follows the `Date` constructor's rule that years 0..99 mean 1900..1999 (`JsFullYear`). In the year range 0..99 the last day of February therefore follows 1900..1999; no real current year reaches that branch.
