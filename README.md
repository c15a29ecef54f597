# peach2 analytics dashboard — filter and aggregation core in Dafny

This project models the computations behind the Dash social-media analytics
dashboard. It does not model the page layout. The model has four parts.

- **Facet filter** (`dataframe_filter`, `sidebar.dfy`, properties in
  `sidebar_properties.dfy`). The filter narrows a post table in a fixed
  order:
  - platform membership;
  - every selected account category column equal to 1;
  - the identity column;
  - the `institutional` flag;
  - the `georgia` flag;
  - a date bound.

  In relative mode the bound counts back from the latest post that passed the
  label facets. It is 7/15/30/60/90 days, or 6 or 12 calendar months with the
  day clamped to the month's length. "All Dates" applies no bound. In range
  mode the bound is an explicit inclusive range. The weekly keyword table gets
  the same date bound and no other facet. The operation is an imperative
  method (`Sidebar.DataframeFilter` and the three steps it calls). It is
  proved equal to the declarative `Sidebar.Filter`, and the properties are
  proved about `Filter`.
- **Engagement card** (`engagement_statistics`, `graphs.dfy`). It resolves a
  span anchored to *today*, or to the corpus's earliest date under "All
  Dates". It then counts the posts of the whole corpus dated within the span,
  both ends inclusive, and sums their `engagementRaw`. A bound that is never
  supplied compares false with every date, so the card then shows zeros.
- **Topic table** (`new_dashboard.dfy`). The topic set is the union of every row's
  `topics` list. A loop fills a map with each topic's column sum.
- **Option helpers** (`new_dashboard.dfy`). These are `select_all_none_category`
  and `date_options`.

Supporting modules:
- `wrappers.dfy`: `Option` and `Result`.
- `rows.dfy`: `Where`, the boolean-mask selection `df[mask]`, and its algebra.
- `posts.dfy`: the row types.
- `calendar.dfy`: proleptic Gregorian day numbers. Day 0 is 0001-01-01.
  `FromDay` and `ToDay` are proved inverse, and `MinusMonths` is pandas
  `DateOffset(months=k)` subtraction.
- `relative_dates.dfy`: the dropdown's windows.

Behaviour of the code that the model keeps, where a reader might expect
otherwise:

- **The two cards anchor relative windows differently.** The filter anchors
  to the latest post that passed the label facets. The engagement card
  anchors to today. The card also ignores every facet and always counts over
  the whole corpus (`Graphs.StatisticsIgnoreFacets`).
- **Adding a category does not always narrow the result.** In range mode and
  under "All Dates", one more category never adds a row
  (`SidebarProperties.AddCategoryNarrows`). Under a relative window it can add
  rows, because the anchor moves back to the latest post that still passes.
  `SidebarProperties.AddCategoryCanWidenRelativeWindow` shows a table where
  one post is kept for "government" and two for "government" and "media".
- **"All Dates" in the filter reports no start.** The start is None, and the
  end is the end argument passed in, unchanged. On the engagement card the
  start is the corpus's earliest date.
- **Unknown names are errors.** A facet naming a column the frame lacks raises
  (`UnknownColumn`). The first missing name in lookup order is the one
  reported.
- **Errors of the relative window.** A relative label the dropdown does not
  offer is an error in the filter (`UnknownWindow`), because no start date is
  ever bound. On the card the same label leaves the start passed in
  unchanged. A relative window over an empty selection has no latest date to
  anchor to (`NoPostToAnchor`).

## Model

| member | source | states |
|---|---|---|
| Sidebar.DataframeFilter | sidebar.py:142-207 | the imperative filter returns exactly `Filter`: the label facets, then the date bound, with the same errors |
| Sidebar.ApplyCategories | sidebar.py:144-149 | platform selection then one reassignment per category: the posts on a selected platform with every category column 1, or the first category the frame lacks |
| Sidebar.ApplyLabelFacets | sidebar.py:144-167 | the label facets in source order give `LabelStep`: identity 1 unless "all", `institutional`/`georgia` 1 for the positive choice and 0 for any other, errors for missing columns |
| Sidebar.ApplyDateBound | sidebar.py:169-207 | the date half gives `DateStep`: relative window anchored at the latest labelled post, "All Dates" unbounded with start None, range inclusive, weekly table bounded alike |
| Sidebar.FirstMissing | sidebar.py:147-149 | None exactly when every category is a column; otherwise a category that is not a column |
| Sidebar.FirstMissingAfter | sidebar.py:148-149 | categories already found present do not change which one is reported missing |
| Sidebar.NextCategory | sidebar.py:148-149 | each loop step adds exactly one more "column equals 1" condition to the selection |
| Sidebar.MissingCategory | sidebar.py:148-149 | the first category the loop finds missing is the one `FirstMissing` reports |
| SidebarProperties.FilterShape | sidebar.py:142-207 | the posts kept are the posts passing every facet and the reported bound, in table order; the weekly rows kept are those within the bound |
| SidebarProperties.FilterKeepsExactly | sidebar.py:144-205 | both tables are order-preserving subsequences; a post is kept iff it passes every facet and the bound, a weekly row iff it is within the bound |
| SidebarProperties.FilterFacets | sidebar.py:144-167 | every kept post has a selected platform, every selected category 1, identity 1 unless "all", and the flag values each account type and location choice demands |
| SidebarProperties.FilterErrors | sidebar.py:147-205 | the exact conditions for each error: missing column, range without a bound, relative window over no post, unknown window; "All Dates" fails only on a missing column |
| SidebarProperties.RelativeWindowResult | sidebar.py:169-198 | relative window: end is the latest labelled post's day, start is the window counted back from it, posts kept iff labelled and on or after the start, no upper bound, weekly rows on or after the start |
| SidebarProperties.AllDatesResult | sidebar.py:169-174 | "All Dates": no date filter, start None, end passed through, weekly table untouched |
| SidebarProperties.RangeResult | sidebar.py:199-205 | range mode: bounds reported back, posts and weekly rows kept iff within them, inclusive at both ends |
| SidebarProperties.CategoryOrderIrrelevant | sidebar.py:147-149 | the order and repetition of selected categories do not change the result |
| SidebarProperties.WindowRefilter | sidebar.py:169-198 | re-applying a relative window to its own output keeps it all: the latest post stays the anchor |
| SidebarProperties.RangeRefilter | sidebar.py:199-205 | re-applying a range to its own output keeps it all |
| SidebarProperties.FilterIdempotent | sidebar.py:142-207 | filtering the filter's output with the same arguments returns the same result |
| SidebarProperties.AddCategoryNarrows | sidebar.py:147-149 | in range mode and under "All Dates", one more category keeps exactly the previous rows whose column is 1, with the same bounds and weekly table |
| SidebarProperties.SampleLabelled | sidebar.py:144-149 | on the three-post table, "government" keeps all three posts and "government"+"media" keeps the two older ones |
| SidebarProperties.SampleLabelStep | sidebar.py:144-167 | the label facets on the three-post table give those selections without error |
| SidebarProperties.SampleDateStep | sidebar.py:169-198 | "Last 7 Days" anchored at day 100 keeps one post, anchored at day 10 keeps two |
| SidebarProperties.AddCategoryCanWidenRelativeWindow | sidebar.py:169-198 | under a relative window, adding "media" to "government" turns one kept post into two |
| SidebarProperties.LabelStepIgnoresDates | sidebar.py:144-167 | the label facets read neither the date mode nor the dates |
| SidebarProperties.RangeNarrows | sidebar.py:199-205 | in range mode, a later start or an earlier end never adds a row to either table and keeps the remaining rows in order |
| RelativeDates.WindowOf | sidebar.py:175-196 | a window exists exactly for the seven dropdown labels other than "All Dates", and each label names its own: "Last 7/15/30/60/90 Days" that many days, "Last 6 Months" 6 months, "Last 1 Year" 1 year |
| RelativeDates.WindowStart | sidebar.py:176-196 | the start never follows the anchor; a day window is anchor minus its days and exists iff that is a day |
| RelativeDates.WindowStartMonotone | sidebar.py:176-196 | a later anchor never gives an earlier start |
| RelativeDates.LastYearCalendar | sidebar.py:194-196 | "Last 1 Year" keeps the month and day one year earlier, 29 February becoming 28 February |
| Calendar.FromDay | sidebar.py:176-196 | every day number has a valid calendar date that maps back to it |
| Calendar.ToDayOrder | sidebar.py:176-196 | day numbers order calendar dates by year, then month, then day |
| Calendar.MinusMonths | sidebar.py:191-196 | the month shift never moves forward, and moves strictly back for a positive shift |
| Calendar.MinusMonthsCalendar | sidebar.py:191-196 | the shift lands k months earlier across years, with the day clamped to the month's length; it fails iff it would precede year 1 |
| Calendar.MinusMonthsMonotone | sidebar.py:191-196 | a later date never shifts to an earlier one |
| Posts.MaxDay | sidebar.py:171 | the latest `authoredAt` bounds every post and is one post's date |
| Posts.MinDay | graphs.py:89 | the earliest `authoredAt` bounds every post and is one post's date |
| Rows.Where | sidebar.py:144 | the mask selection keeps exactly the rows satisfying the mask, never more rows |
| Rows.WhereIsSubsequence | sidebar.py:144 | the mask selection keeps table order |
| Graphs.ResolveSpan | graphs.py:65-90 | the span ends today in relative mode and at the end passed in otherwise; it fails only for a dropdown window that reaches before year 1, and such a window starts no later than today |
| Graphs.SpanTotals | graphs.py:92-96 | the post count never exceeds the corpus size; it is 0 exactly when no post is dated within the span, and then no reaction is counted |
| Graphs.EngagementStatistics | graphs.py:54-96 | the card fails exactly when the span cannot be resolved; otherwise its totals never exceed the corpus's post count and engagement |
| Graphs.MissingBoundCountsNothing | graphs.py:92-96 | a bound never supplied selects no post: range mode without a start or end, an unlisted relative label with no start, "All Dates" over an empty corpus |
| Graphs.ResolveSpanCases | graphs.py:65-90 | range mode keeps both bounds; relative ends today, starts N days or 6/12 months back, at the corpus minimum under "All Dates", or at the start passed in for another label |
| Graphs.StatisticsOverSpan | graphs.py:92-96 | once the span has two bounds, the card shows the totals over it |
| Graphs.SpanTotalsStep | graphs.py:92-96 | a post counts once, with its engagement, exactly when start ≤ its day ≤ end |
| Graphs.SpanTotalsIsReference | graphs.py:92-96 | `len` and `sum` over the selected rows equal an independent post-by-post count and reaction total |
| Graphs.SpanTotalsAppend | graphs.py:92-96 | totals add up over a table split in two |
| Graphs.SpanTotalsSplit | graphs.py:92-96 | totals add up over a span split at any day, so both ends are counted once |
| Graphs.EmptySpanCountsNothing | graphs.py:92-96 | a span whose start is after its end gives 0 posts and 0 reactions |
| Graphs.SpanCoveringAll | graphs.py:92-96 | a span covering every post counts the whole corpus and all its engagement |
| Graphs.SpanTotalsBounded | graphs.py:92-96 | totals never exceed the corpus's; no post counted means no reaction counted |
| Graphs.AllDatesCountsEverything | graphs.py:88-96 | "All Dates" over a corpus dated up to today counts every post and every reaction |
| Graphs.TotalsIgnoreFacets | graphs.py:63-96 | the totals depend only on dates and `engagementRaw` |
| Graphs.MinDayIgnoresFacets | graphs.py:89 | the corpus minimum depends only on the dates |
| Graphs.ResolveSpanIgnoresFacets | graphs.py:65-90 | the span depends only on the dates |
| Graphs.StatisticsIgnoreFacets | graphs.py:63-96 | the card is the same for two corpora with the same dates and engagement, whatever their platforms and labels; an empty corpus shows zeros |
| Graphs.TwoPostsTotalTwelve | graphs.py:92-96 | two posts in the span with engagement 5 and 7 give 2 posts and 12 reactions |
| NewDashboard.TopicSet | new_dashboard.py:18 | a topic is in the set exactly when some row lists it |
| NewDashboard.ColumnSum | new_dashboard.py:126 | a column of zeros sums to 0, and a 0/1 column sums to between 0 and the row count |
| NewDashboard.TopicSums | new_dashboard.py:19-21 | the table's keys are the topic set and each value is that topic's column sum; it fails iff a topic has no column; an empty table gives an empty map |
| NewDashboard.ColumnSumCounts | new_dashboard.py:124-126 | over a 0/1 column the sum is the number of rows marked 1, between 0 and the row count |
| NewDashboard.TopicCountsListings | new_dashboard.py:118-126 | with one-hot topic columns a topic's sum counts the rows listing it and is at least 1 exactly when the topic is in the set |
| NewDashboard.TopicSetNarrows | new_dashboard.py:117-118 | the topics of a filtered view are among the topics of the whole table |
| NewDashboard.SelectAllNone | new_dashboard.py:50-53 | every option value in option order when "All" is ticked, nothing otherwise |
| NewDashboard.SelectAllNoneMembers | new_dashboard.py:61-64 | a value is selected iff "All" is ticked and some option carries it |
| NewDashboard.SelectAllNoneCategories | new_dashboard.py:50-53 | ticking "All" makes the filter require every option's column; clearing it lifts the category facet |
| NewDashboard.DateOptions | new_dashboard.py:72-79 | "relative" shows the dropdown and hides the range picker, anything else the reverse; exactly one is shown |
| NewDashboard.HiddenControlIgnored | new_dashboard.py:72-79 | the hidden control has no effect on the filter: in relative mode the picked start date, in range mode the dropdown's label |

## Left out

- `dashboard.py` is not part of this model: every line of it is commented out.
- Loading the pickle (`data_process.py`) is file I/O. The model takes its output as given: `authoredAt` is already a day.
- `style.py`, the sidebar component tree, `hot_topics`, `topic_bar_graph`, the markup built by `engagement_statistics`, and callback registration are presentation only.
- The sentiment group-by mean and the 7-day rolling compound (new_dashboard.py:120-121) are floating point, and their result is never used.
- `datetime.now()` is the `today` parameter of the engagement card.
- Parsing the range bounds from `%Y-%m-%d` strings is not modelled. The bounds arrive as optional day numbers, and an unparsable string is outside the model.
- pandas `Timestamp` range limits are not modelled. Only the lower limit of `datetime.date` (year 1) is, as `DateOutOfRange`.
- Type clashes in the source are normalised to day-number comparisons rather than reproduced:
  - a `date` compared with a `datetime` (sidebar.py:197-198, 204-205);
  - `Series.date()` (sidebar.py:204-205);
  - `.date()` on the latest `authoredAt`, which is already a date (sidebar.py:175).
- The `graphs` callback (new_dashboard.py:110-131), which chains the filter, the topic table and the card, is not modelled as one member. Its call at line 112 passes one argument fewer than `dataframe_filter` takes, and lines 114-115 read the weekly table and the start as the two dates. Each step it calls is modelled on its own: `Sidebar.DataframeFilter`, `NewDashboard.TopicSums` and `Graphs.EngagementStatistics`.
- Converting the topic map to a two-column data frame (new_dashboard.py:22-23, 127-128) is a change of container only.
- Posts.Field: a column a row lacks reads as 0. In a data frame every row has every column, and every lookup is guarded by the frame's column set.
- Dashboard.TopicSums: `list(set(...))` has no specified order, so the model iterates by arbitrary choice. When several topics lack a column, it states only that the one reported is one of them.
- Graphs.EngagementStatistics: a missing bound is taken to select no post, as pandas does when it compares a date column with `None`. Ordering of `NaN` against dates is not modelled beyond that.
