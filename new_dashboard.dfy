/** The dashboard's own computations: the topic frequency table it builds from
    a post table (once over the whole corpus at start-up, again over the
    filtered view on every update), the "All"/"None" checklist helpers and the
    callback that shows one of the two date controls. */
module NewDashboard {
  import opened Wrappers
  import opened Rows
  import opened Posts
  import Sidebar
  import SidebarProperties

  // Topic frequency table

  /** The unique topics of a table: every value of every row's `topics` list. */
  function TopicSet(rows: seq<Post>): (r: set<string>)
    ensures forall t :: t in r ==> exists p :: p in rows && t in p.topics
    ensures forall p, t :: p in rows && t in p.topics ==> t in r
  {
    if rows == [] then {}
    else (set t | t in rows[0].topics) + TopicSet(rows[1..])
  }

  /** `df[column].sum()`: the column's values added over the rows. */
  function ColumnSum(rows: seq<Post>, column: string): (r: int)
    ensures (forall p :: p in rows ==> Field(p, column) == 0) ==> r == 0
    ensures (forall p :: p in rows ==> 0 <= Field(p, column) <= 1) ==> 0 <= r <= |rows|
  {
    if rows == [] then 0
    else
      assert forall p :: p in rows[1..] ==> p in rows;
      Field(rows[0], column) + ColumnSum(rows[1..], column)
  }

  /** The topic table: one entry per unique topic, holding the sum of that
      topic's column. A topic the frame has no column for raises, as the
      column lookup does; which missing topic is reported depends on the
      iteration order of the topic set, which is unspecified. */
  method TopicSums(rows: seq<Post>, columns: set<string>) returns (res: Result<map<string, int>, string>)
    ensures res.Ok? <==> TopicSet(rows) <= columns
    ensures res.Ok? ==> res.value.Keys == TopicSet(rows)
    ensures res.Ok? ==> forall t :: t in res.value ==> res.value[t] == ColumnSum(rows, t)
    ensures res.Err? ==> res.error in TopicSet(rows) && res.error !in columns
    ensures rows == [] ==> res == Ok(map[])
  {
    var topics := TopicSet(rows);
    var remaining := topics;
    var sums: map<string, int> := map[];
    while remaining != {}
      invariant remaining <= topics
      invariant sums.Keys == topics - remaining
      invariant topics - remaining <= columns
      invariant forall t :: t in sums ==> sums[t] == ColumnSum(rows, t)
      decreases remaining
    {
      var t :| t in remaining;
      if t !in columns {
        return Err(t);
      }
      sums := sums[t := ColumnSum(rows, t)];
      remaining := remaining - {t};
    }
    return Ok(sums);
  }

  /** The rows a topic column marks with `value`. */
  function Marked(column: string, value: int): Post -> bool {
    (p: Post) => Field(p, column) == value
  }

  /** The rows that list a topic. */
  function Lists(topic: string): Post -> bool {
    (p: Post) => topic in p.topics
  }

  /** Over a 0/1 column the sum counts the rows marked 1, so it lies between 0
      and the number of rows. */
  lemma {:induction false} ColumnSumCounts(rows: seq<Post>, column: string)
    requires forall p :: p in rows ==> Field(p, column) == 0 || Field(p, column) == 1
    ensures ColumnSum(rows, column) == |Where(rows, Marked(column, 1))|
    ensures 0 <= ColumnSum(rows, column) <= |rows|
  {
    if rows != [] {
      ColumnSumCounts(rows[1..], column);
      assert forall p :: p in rows[1..] ==> p in rows;
    }
  }

  /** The topic columns agree with the `topics` lists: a row's column for a
      topic is 1 exactly when the row lists that topic. */
  predicate OneHot(rows: seq<Post>, topic: string) {
    forall p :: p in rows ==> Field(p, topic) == (if topic in p.topics then 1 else 0)
  }

  /** With one-hot topic columns every entry of the table counts the rows
      listing its topic, and is at least 1 because the topic came from some row. */
  lemma {:induction false} TopicCountsListings(rows: seq<Post>, topic: string)
    requires OneHot(rows, topic)
    ensures ColumnSum(rows, topic) == |Where(rows, Lists(topic))|
    ensures topic in TopicSet(rows) <==> ColumnSum(rows, topic) >= 1
  {
    if rows != [] {
      assert forall p :: p in rows[1..] ==> p in rows;
      TopicCountsListings(rows[1..], topic);
    }
    if topic in TopicSet(rows) {
      var p :| p in rows && topic in p.topics;
      assert p in Where(rows, Lists(topic));
    }
  }

  /** The table of a filtered view names no topic the unfiltered table lacks. */
  lemma {:induction false} TopicSetNarrows(rows: seq<Post>, keep: Post -> bool)
    ensures TopicSet(Where(rows, keep)) <= TopicSet(rows)
  {
    forall t | t in TopicSet(Where(rows, keep))
      ensures t in TopicSet(rows)
    {
      var p :| p in Where(rows, keep) && t in p.topics;
      assert p in rows;
    }
  }

  // Checklist helpers

  /** An entry of a checklist's options: the text shown and the value it selects. */
  datatype ChecklistOption = ChecklistOption(text: string, value: string)

  /** `select_all_none_category`: every option's value, in option order, when
      the "All" box is ticked (its value list is non-empty), and nothing when
      it is not. Both checklists, account categories and COM-B components,
      share this behaviour. */
  function SelectAllNone(allSelected: seq<string>, options: seq<ChecklistOption>): (r: seq<string>)
    ensures |r| == if allSelected == [] then 0 else |options|
    ensures allSelected != [] ==> forall i :: 0 <= i < |options| ==> r[i] == options[i].value
  {
    if allSelected == [] then []
    else seq(|options|, i requires 0 <= i < |options| => options[i].value)
  }

  /** A value is selected exactly when the box is ticked and some option
      carries it. */
  lemma SelectAllNoneMembers(allSelected: seq<string>, options: seq<ChecklistOption>, v: string)
    ensures v in SelectAllNone(allSelected, options) <==>
            allSelected != [] && exists o :: o in options && o.value == v
  {
    var r := SelectAllNone(allSelected, options);
    if v in r {
      var i :| 0 <= i < |r| && r[i] == v;
      assert options[i] in options;
    }
    if allSelected != [] && exists o :: o in options && o.value == v {
      var o :| o in options && o.value == v;
      var i :| 0 <= i < |options| && options[i] == o;
      assert r[i] == v;
    }
  }

  /** Ticking "All" for the account categories makes the filter require every
      listed category; clearing it lifts the category facet. */
  lemma SelectAllNoneCategories(allSelected: seq<string>, options: seq<ChecklistOption>, sel: Sidebar.Selection, p: Post)
    requires sel.categories == SelectAllNone(allSelected, options)
    ensures allSelected == [] ==> Sidebar.AllOnes(p, sel.categories)
    ensures allSelected != [] ==>
              (Sidebar.AllOnes(p, sel.categories) <==> forall o :: o in options ==> Field(p, o.value) == 1)
  {
    if allSelected != [] {
      if Sidebar.AllOnes(p, sel.categories) {
        forall o | o in options
          ensures Field(p, o.value) == 1
        {
          SelectAllNoneMembers(allSelected, options, o.value);
        }
      }
      if forall o :: o in options ==> Field(p, o.value) == 1 {
        forall c | c in sel.categories
          ensures Field(p, c) == 1
        {
          SelectAllNoneMembers(allSelected, options, c);
        }
      }
    }
  }

  // Date controls

  /** A div's `display` style: "block" or "none". */
  datatype Display = Show | Hide

  /** The styles of the range picker's div and of the relative dropdown's div. */
  datatype DateDivs = DateDivs(rangeDiv: Display, relativeDiv: Display)

  /** `date_options`: the relative dropdown shows for "relative" and the range
      picker for anything else; exactly one of the two is visible. */
  function DateOptions(timeFrame: string): (r: DateDivs)
    ensures r.relativeDiv == Show <==> timeFrame == "relative"
    ensures r.rangeDiv == Show <==> timeFrame != "relative"
    ensures r.rangeDiv != r.relativeDiv
  {
    if timeFrame == "relative" then DateDivs(Hide, Show) else DateDivs(Show, Hide)
  }

  /** A hidden control has no effect: while the relative dropdown shows, the
      picked start date does not change what the filter returns, and while
      the range picker shows, the dropdown's choice does not. */
  lemma HiddenControlIgnored(posts: seq<Post>, weekly: seq<WeekRow>, columns: set<string>,
                             sel: Sidebar.Selection, start: Option<nat>, window: string)
    ensures DateOptions(sel.timeFrame).rangeDiv == Hide ==>
              Sidebar.Filter(posts, weekly, columns, sel) == Sidebar.Filter(posts, weekly, columns, sel.(startDate := start))
    ensures DateOptions(sel.timeFrame).relativeDiv == Hide ==>
              Sidebar.Filter(posts, weekly, columns, sel) == Sidebar.Filter(posts, weekly, columns, sel.(relativeDate := window))
  {
    SidebarProperties.LabelStepIgnoresDates(posts, columns, sel, sel.(startDate := start));
    SidebarProperties.LabelStepIgnoresDates(posts, columns, sel, sel.(relativeDate := window));
  }
}
