# QA dashboard pipeline — a Dafny model

The QA dashboard for course development loads a table of quality-assurance
issues (or generates a demo table), normalises its column names, derives each
issue's SLA target, age and breach flag, narrows the table with five sidebar
filters, and shows KPI cards, an SLA overview, issues created per day, the
status distribution, the severity mix per course, an age histogram, a
work-in-progress table and a searchable detail table.

This project models that data pipeline as pure functions over `seq<Issue>`,
with two imperative parts where the source works step by step: the filter
stage (five conditional reassignments of the filtered frame) and the demo
generator (a loop that appends rows). Widgets, layout and charts are not
modelled.

Conventions of the model:

- Timestamps are whole seconds (`Issues.Timestamp`). A calendar date is the
  day number `t / 86400`, which rounds down like pandas' `.dt.date`; an age in
  days rounds down like a pandas timedelta's `.days`.
- The wall clock (`pd.Timestamp.today()`) is the parameter `now`. The
  generator's random draws are the parameter `draws`: one `Draw` per row, each
  within the ranges and choice lists the generator draws from.
- Status and severity are enumerations. The status order
  Open < In Progress < Fixed < Verified < Closed is `Issues.AllStatuses`.
- The SLA target always comes from the severity map (Critical 2, High 5,
  Medium 10, Low 15 days). The data dictionary text says a supplied
  `sla_days` column takes precedence. The code never reads one: it derives the
  three SLA columns only for the demo table, and `load_data` applies no
  derivation to an uploaded table. The model follows the code. `Sla.Derive` is
  a standalone function, and the uploaded rows are taken as already carrying
  the three derived columns.
- Loading performs no schema check and raises no parse errors of its own. A
  missing column or a bad timestamp fails inside `pd.read_csv` or later at
  the first use of the column. Neither is modelled.

Modules: `Basics` (Option, counting, subsequences), `Text` (strip, lower,
substring, number formatting, string order), `Issues` (the row type),
`Columns` (header normalisation), `Sla` (derived columns), `ExampleData`
(demo generator), `Filters` (sidebar filters), `TextSearch` (detail search),
`Aggregates` (KPIs and group counts), `Ordering` (the two sorted tables).

## Model

| member | source | states |
|---|---|---|
| Columns.NormalizeName | streamlit_qa_dashboard_course_development_starter_app.py:18 | a normalised header is the input with only surrounding whitespace removed, then lower-cased; it has no upper-case letter and neither starts nor ends with whitespace |
| Columns.NormalizeNameIdempotent | streamlit_qa_dashboard_course_development_starter_app.py:18 | normalising a header twice gives the same result as once |
| Columns.NormalizeColumns | streamlit_qa_dashboard_course_development_starter_app.py:18 | the new header row has the same length, with each name normalised in its own position |
| Columns.NormalizeColumnsIdempotent | streamlit_qa_dashboard_course_development_starter_app.py:18 | normalising an already-normalised header row leaves it unchanged |
| Text.Trim | streamlit_qa_dashboard_course_development_starter_app.py:18 | `strip()` returns a slice of the input; everything cut off is whitespace and the result neither starts nor ends with whitespace |
| Text.Lower | streamlit_qa_dashboard_course_development_starter_app.py:18 | `lower()` keeps the length, maps each character through the letter mapping and leaves no upper-case letter |
| Text.LowerIdempotent | streamlit_qa_dashboard_course_development_starter_app.py:172 | lower-casing twice equals lower-casing once |
| Text.ContainsAt | streamlit_qa_dashboard_course_development_starter_app.py:174-176 | the substring test `q in s` holds exactly when `q` occurs at some position of `s` |
| Text.ContainsLower | streamlit_qa_dashboard_course_development_starter_app.py:172-176 | an exact-case occurrence is also an occurrence after lower-casing both strings |
| Text.ParseNatToString | streamlit_qa_dashboard_course_development_starter_app.py:43 | reading back the decimal text of a number gives the number |
| Text.NatToStringInjective | streamlit_qa_dashboard_course_development_starter_app.py:43 | different numbers format to different texts |
| Issues.StatusRank | streamlit_qa_dashboard_course_development_starter_app.py:34 | each status has a position in the ordered category list Open, In Progress, Fixed, Verified, Closed |
| Issues.SeverityRank | streamlit_qa_dashboard_course_development_starter_app.py:35 | each severity has a position in Low, Medium, High, Critical |
| Issues.Day | streamlit_qa_dashboard_course_development_starter_app.py:122 | the calendar date of a timestamp is the day whose 86400-second span contains it |
| Sla.SlaDays | streamlit_qa_dashboard_course_development_starter_app.py:61-62 | the severity map is total and yields one of 2, 5, 10, 15 days |
| Sla.SlaDaysDecreasing | streamlit_qa_dashboard_course_development_starter_app.py:61 | a more severe issue gets a strictly shorter SLA target |
| Sla.AgeDays | streamlit_qa_dashboard_course_development_starter_app.py:63 | the age is the number of whole days elapsed since creation, rounded down |
| Sla.Derive | streamlit_qa_dashboard_course_development_starter_app.py:61-64 | the derived row keeps every input column, its `sla_days` comes from the severity map, its age is the whole days since creation, and it is breached iff age > sla_days |
| Sla.DeriveAll | streamlit_qa_dashboard_course_development_starter_app.py:61-64 | the derived table has one row per input row, each derived at the same instant, and every row is breached iff its age exceeds its SLA target |
| Sla.DeriveAllIdempotent | streamlit_qa_dashboard_course_development_starter_app.py:61-64 | deriving a derived table again at the same instant changes nothing |
| Sla.CriticalThreeDaysOld | streamlit_qa_dashboard_course_development_starter_app.py:61-64 | a Critical issue created three days and some hours ago has target 2, age 3 and is breached |
| ExampleData.IssueIdInjective | streamlit_qa_dashboard_course_development_starter_app.py:43 | the ids `ISSUE-{1000+i}` of different rows differ |
| ExampleData.AgeOfDrawnRow | streamlit_qa_dashboard_course_development_starter_app.py:29-39 | a row created k days before today's midnight has age exactly k at any moment of today |
| ExampleData.DrawnRow | streamlit_qa_dashboard_course_development_starter_app.py:39-57 | one generated row carries the formatted id, course, unit and item id, the drawn choices, and creation and update times k and k+u days from midnight |
| ExampleData.DerivedDrawnRows | streamlit_qa_dashboard_course_development_starter_app.py:58-65 | after derivation the generated rows keep their drawn columns, have unique ids, are never updated before creation, and have the drawn age |
| ExampleData.Generate | streamlit_qa_dashboard_course_development_starter_app.py:27-65 | the demo table has one row per draw, with unique ids, `created_at <= updated_at`, age equal to the drawn days (0 to 39), `sla_days` taken from the severity map, and breached iff its age exceeds its `sla_days` |
| Filters.Keep | streamlit_qa_dashboard_course_development_starter_app.py:81-85 | one `isin` step keeps exactly the rows whose field value is in the selection, each as many times as the table holds it, in their original order |
| Filters.ApplyFilters | streamlit_qa_dashboard_course_development_starter_app.py:80-85 | the five conditional filter steps in the source's order produce the one-pass filter `Filtered` |
| Filters.StepsEqualFiltered | streamlit_qa_dashboard_course_development_starter_app.py:80-85 | applying the five steps one after another equals keeping each row that passes all five (the filters are ANDed) |
| Filters.FilterNoSelection | streamlit_qa_dashboard_course_development_starter_app.py:80-85 | with every selection empty the filtered table is the input table |
| Filters.EmptySelectionIsIdentity | streamlit_qa_dashboard_course_development_starter_app.py:81-85 | a step whose selection is empty leaves the table unchanged |
| Filters.FilteredMembers | streamlit_qa_dashboard_course_development_starter_app.py:80-85 | a row survives iff it is in the table and, for each non-empty selection, its course, unit, status, severity or assignee is selected |
| Filters.FilteredCounts | streamlit_qa_dashboard_course_development_starter_app.py:80-85 | an admitted row appears in the filtered table exactly as many times as in the table, and any other row not at all |
| Filters.FilteredIsSubsequence | streamlit_qa_dashboard_course_development_starter_app.py:80-85 | the filtered table is an order-preserving subsequence of the input, so no longer than it |
| Filters.FilteredAppend | streamlit_qa_dashboard_course_development_starter_app.py:80-85 | filtering a concatenation is the concatenation of the filtered parts (rows are judged one by one) |
| Filters.FilterIdempotent | streamlit_qa_dashboard_course_development_starter_app.py:80-85 | re-applying the same filters is a no-op |
| TextSearch.Search | streamlit_qa_dashboard_course_development_starter_app.py:170-171 | an empty query returns the table unchanged |
| TextSearch.SearchMembers | streamlit_qa_dashboard_course_development_starter_app.py:171-177 | for a non-empty query a row is kept iff the lower-cased query is a substring of its lower-cased issue id, notes or item id |
| TextSearch.SearchIsSubsequence | streamlit_qa_dashboard_course_development_starter_app.py:170-177 | the search result is an order-preserving subsequence of the table |
| TextSearch.SearchCounts | streamlit_qa_dashboard_course_development_starter_app.py:171-177 | for a non-empty query a matching row appears in the result as many times as in the table, and a non-matching one not at all |
| TextSearch.SearchOfFilteredIsSubsequence | streamlit_qa_dashboard_course_development_starter_app.py:80-85 | the detail search runs on the filtered table, so its result keeps the table's order |
| TextSearch.SearchCaseInsensitive | streamlit_qa_dashboard_course_development_starter_app.py:172 | searching for a query or for its lower-cased form gives the same rows |
| TextSearch.NotesHitIsFound | streamlit_qa_dashboard_course_development_starter_app.py:175 | a row whose notes contain the query verbatim is always found |
| Basics.Count | streamlit_qa_dashboard_course_development_starter_app.py:91 | a mask's sum is at most the number of rows, and zero exactly when no row satisfies the mask |
| Basics.CountMonotone | streamlit_qa_dashboard_course_development_starter_app.py:94 | a stricter mask never counts more rows |
| Aggregates.ComputeKpis | streamlit_qa_dashboard_course_development_starter_app.py:90-103 | critical open <= open, SLA breaches <= open, and open + verified + closed <= number of rows |
| Aggregates.OpenVerifiedClosedDisjoint | streamlit_qa_dashboard_course_development_starter_app.py:90-93 | the open, verified and closed counts together do not exceed the row count, as the three status sets are disjoint |
| Aggregates.BreachRates | streamlit_qa_dashboard_course_development_starter_app.py:106-107 | one exact fraction per severity, in severity order, with breached open issues <= open issues of that severity |
| Aggregates.BreachRatesAddUp | streamlit_qa_dashboard_course_development_starter_app.py:103-106 | the per-severity numerators sum to the SLA-breach KPI and the denominators to the open-issues KPI |
| Aggregates.AddDay | streamlit_qa_dashboard_course_development_starter_app.py:121-123 | recording one more issue on a day keeps the days ascending, raises that day's count by one and no other, and keeps every count positive |
| Aggregates.CreatedDaily | streamlit_qa_dashboard_course_development_starter_app.py:121-123 | the daily series has ascending distinct dates and no zero count; each date's count is the number of rows created that day, and the counts sum to the row count |
| Aggregates.DailyEntriesOccur | streamlit_qa_dashboard_course_development_starter_app.py:121-123 | every date in the daily series is the creation date of some row |
| Aggregates.StatusDistribution | streamlit_qa_dashboard_course_development_starter_app.py:131 | all five statuses appear, in category order, zero counts included, and the counts sum to the row count |
| Aggregates.StatusPartition | streamlit_qa_dashboard_course_development_starter_app.py:131 | the five per-status counts sum to the number of rows |
| Aggregates.SeverityMix | streamlit_qa_dashboard_course_development_starter_app.py:140 | a course's four per-severity counts sum to that course's row count |
| Aggregates.CourseSeverityPartition | streamlit_qa_dashboard_course_development_starter_app.py:140 | the (course, severity) counts of one course sum to the course's row count |
| Aggregates.BucketOf | streamlit_qa_dashboard_course_development_starter_app.py:150 | an age gets a bin iff it lies in (-1, 999], and that bin's right-closed interval contains it |
| Aggregates.BucketExactlyOne | streamlit_qa_dashboard_course_development_starter_app.py:150 | an age lies in a bin's interval iff that bin is the one chosen, so bins never overlap |
| Aggregates.AgeDistribution | streamlit_qa_dashboard_course_development_starter_app.py:150-151 | all five bins in order with their labels, and the counts sum to the number of rows whose age lies in (-1, 999] |
| Aggregates.BucketPartition | streamlit_qa_dashboard_course_development_starter_app.py:150-151 | the five bin counts sum to the number of rows whose age lies in (-1, 999] |
| Ordering.SortDesc | streamlit_qa_dashboard_course_development_starter_app.py:160 | a descending sort by a pair of keys gives a sorted permutation of its input |
| Ordering.SortDescStable | streamlit_qa_dashboard_course_development_starter_app.py:160 | the descending sort is stable: the rows with any one key value appear in the same order before and after |
| Ordering.OpenRows | streamlit_qa_dashboard_course_development_starter_app.py:160 | `fdf[open_mask]` holds exactly the open rows of the table, each as many times as the table holds it, in their original order |
| Ordering.LexicalCodeIsNameOrder | streamlit_qa_dashboard_course_development_starter_app.py:20-23 | the category codes pandas gives the severity column follow the string order of the severity names |
| Ordering.WipTableAsWritten | streamlit_qa_dashboard_course_development_starter_app.py:160 | the source's WIP table is a permutation of the open rows sorted descending by (severity category code, age); rows with equal keys keep their order |
| Ordering.WipAsWrittenPutsMediumFirst | streamlit_qa_dashboard_course_development_starter_app.py:160 | as written, an open Medium issue is listed before an open Critical one |
| Ordering.WipTable | streamlit_qa_dashboard_course_development_starter_app.py:160 | the WIP table has exactly the open rows, with a more severe issue before a less severe one and, within one severity, an older issue first; rows of equal severity and age keep their order in the filtered table, as the multi-column sort is stable |
| Ordering.WipPutsCriticalFirst | streamlit_qa_dashboard_course_development_starter_app.py:160 | the corrected WIP table lists an open Critical issue before an open Medium one |
| Ordering.DetailTable | streamlit_qa_dashboard_course_development_starter_app.py:170-178 | the detail table is a permutation of the search result, most recently updated first |

## Left out

- The Streamlit page is left out: configuration, sidebar widgets, multiselect option lists, metric cards, expanders, Altair charts and the data dictionary text (lines 7-9, 67-77, 96-100, 104-113, 125-145, 153-156, 183-207). It is presentation only.
- CSV reading and timestamp parsing (`pd.read_csv`, line 16) are foreign library calls. Rows are taken as already typed.
- `@st.cache_data` memoisation (lines 14, 26) is left out. The cache has no time-to-live, so a rerun with the same input gets the table computed at the first call: the generator's `today` (line 29), `age_days` and `sla_breached` (lines 63-64) stay at that first call's clock. The model's `now` stands for the instant of that first call, not for the moment of display.
- The categorical coercion loop (lines 20-23) changes no value, and the model keeps no dtype. What the dtype decides is modelled directly. It fixes the WIP sort order, which `Ordering.LexicalCode` captures. With pandas' default `observed=False`, it also makes `groupby("severity")` (line 106) and `groupby(["course_name","severity"])` (line 140) list categories that no filtered row has, and makes `value_counts()` (line 131) list statuses with count 0. `BreachRates`, `SeverityMix` and `StatusDistribution` list every category for the same reason. An empty severity group's rate is 0 of 0 in the model, where pandas shows NaN.
- Aggregates.StatusDistribution: always lists all five statuses, with count 0 where needed. The source lists only the categories of the loaded table, because `astype("category")` takes them from the values present there. Only the demo table's status column carries all five statuses (lines 33 and 59). So for an uploaded table with no "Verified" row, the status chart has no "Verified" entry at all.
- Aggregates.BreachRates and Aggregates.SeverityMix: likewise always list all four severities, while the source lists only the severities present in the loaded table. A course with no rows in the loaded table is likewise never listed by the source.
- The generator's random number source and its probability weights (lines 28-57) are left out. The draws are a parameter, constrained only to the ranges and choice lists used.
- The wall clock is left out. Lines 29 and 63 call `pd.Timestamp.today()` separately, and the model reads both calls as the same instant `now`.
- Breach-rate percentages rounded to one decimal (line 107) and the normalised 100% stack (line 142) are floating-point outputs. The model gives the exact integer numerators and denominators instead.
- The rename at line 152 names columns that do not exist, so it does nothing, and it is not modelled.
- Row order of `value_counts` (by count) and of `groupby` output is left out. `StatusDistribution`, `BreachRates`, `SeverityMix` and `AgeDistribution` use the fixed category order instead, and the charts set their own axis order. Whether pandas also lists empty age bins depends on its version. The model always lists all five, with count 0 when empty.
- Missing values are not modelled: NaN text, which `str()` turns into "nan" in the search, and NaT timestamps.
- Text.Lower: maps ASCII letters only. Python's `str.lower()` also lower-cases other Unicode letters.
- Ordering.DetailTable: says nothing about the order of rows updated at the same instant. The source's single-key sort is not stable.

## Findings

| source | as written | input that shows it | evidently intended | confidence | as-written member | corrected member |
|---|---|---|---|---|---|---|
| streamlit_qa_dashboard_course_development_starter_app.py:160 | sorts `severity` descending by category code; `astype("category")` at line 23 orders a string column's categories alphabetically (Critical, High, Low, Medium), so descending order is Medium, Low, High, Critical | two open issues, one Critical and one Medium: the Medium one is listed first | most severe first (Critical, High, Medium, Low), then oldest | high; not executed | Ordering.WipAsWrittenPutsMediumFirst | Ordering.WipTable |
