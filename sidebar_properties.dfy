/** What `dataframe_filter` promises: order-preserving selection, the
    meaning of each facet, the bounds it reports in each date mode, the
    errors it raises, idempotence, and how adding a category narrows it. */
module SidebarProperties {
  import opened Wrappers
  import opened Rows
  import opened Posts
  import opened RelativeDates
  import opened Sidebar

  /** Every column a facet of `sel` looks up is a column of the frame. */
  predicate ColumnsPresent(sel: Selection, columns: set<string>) {
    && (forall c :: c in sel.categories ==> c in columns)
    && (sel.identity != "all" ==> sel.identity in columns)
    && (sel.accountType != "all" ==> "institutional" in columns)
    && (sel.location != "all" ==> "georgia" in columns)
  }

  /** The date bound a filter result reports, read as a condition on a day:
      a lower bound only in relative mode (none under "All Dates"), both
      bounds inclusive in range mode. */
  predicate DayInBound(sel: Selection, out: Filtered, day: nat) {
    if sel.timeFrame == "relative" then out.start.None? || day >= out.start.value
    else out.start.Some? && out.end.Some? && out.start.value <= day <= out.end.value
  }

  function WithinBound(sel: Selection, out: Filtered): Post -> bool {
    (p: Post) => Admits(sel, p) && DayInBound(sel, out, p.authoredAt)
  }

  function WeekWithinBound(sel: Selection, out: Filtered): WeekRow -> bool {
    (r: WeekRow) => DayInBound(sel, out, r.weekAuthored)
  }

  /** The posts kept are the posts passing every facet and the reported date
      bound, in table order; the weekly rows kept are those within the same
      bound, whatever the label facets say. */
  lemma FilterShape(posts: seq<Post>, weekly: seq<WeekRow>, columns: set<string>, sel: Selection)
    requires Filter(posts, weekly, columns, sel).Ok?
    ensures var out := Filter(posts, weekly, columns, sel).value;
            out.posts == Where(posts, WithinBound(sel, out)) &&
            out.weekly == Where(weekly, WeekWithinBound(sel, out))
  {
    var out := Filter(posts, weekly, columns, sel).value;
    var labelled := Labelled(posts, sel);
    if sel.timeFrame == "relative" {
      if sel.relativeDate == AllDates {
        WhereCongruent(posts, Keeps(sel), WithinBound(sel, out));
        WhereAll(weekly, WeekWithinBound(sel, out));
      } else {
        var start := out.start.value;
        WhereWhere(posts, Keeps(sel), OnOrAfter(start), WithinBound(sel, out));
        WhereCongruent(weekly, WeekOnOrAfter(start), WeekWithinBound(sel, out));
      }
    } else {
      var start, end := out.start.value, out.end.value;
      WhereWhere(posts, Keeps(sel), Between(start, end), WithinBound(sel, out));
      WhereCongruent(weekly, WeekBetween(start, end), WeekWithinBound(sel, out));
    }
  }

  /** Both returned tables are order-preserving selections of the inputs: a
      post is kept exactly when it passes every facet and the date bound, a
      weekly row exactly when it is within the date bound. */
  lemma FilterKeepsExactly(posts: seq<Post>, weekly: seq<WeekRow>, columns: set<string>, sel: Selection)
    requires Filter(posts, weekly, columns, sel).Ok?
    ensures var out := Filter(posts, weekly, columns, sel).value;
            && IsSubsequence(out.posts, posts)
            && IsSubsequence(out.weekly, weekly)
            && (forall p :: p in out.posts <==> p in posts && Admits(sel, p) && DayInBound(sel, out, p.authoredAt))
            && (forall r :: r in out.weekly <==> r in weekly && DayInBound(sel, out, r.weekAuthored))
  {
    var out := Filter(posts, weekly, columns, sel).value;
    FilterShape(posts, weekly, columns, sel);
    WhereIsSubsequence(posts, WithinBound(sel, out));
    WhereIsSubsequence(weekly, WeekWithinBound(sel, out));
  }

  /** The meaning of each facet on every post kept: its platform is selected;
      every selected category column is 1 (none is required when no category
      is selected); the identity column is 1 unless identity is "all";
      `institutional` is 1 for "institutional" and 0 for any other choice but
      "all"; `georgia` likewise for "georgia". */
  lemma FilterFacets(posts: seq<Post>, weekly: seq<WeekRow>, columns: set<string>, sel: Selection)
    requires Filter(posts, weekly, columns, sel).Ok?
    ensures forall p :: p in Filter(posts, weekly, columns, sel).value.posts ==>
      && p in posts
      && p.platform in sel.platforms
      && (forall c :: c in sel.categories ==> Field(p, c) == 1)
      && (sel.identity != "all" ==> Field(p, sel.identity) == 1)
      && (sel.accountType == "institutional" ==> Field(p, "institutional") == 1)
      && (sel.accountType != "all" && sel.accountType != "institutional" ==> Field(p, "institutional") == 0)
      && (sel.location == "georgia" ==> Field(p, "georgia") == 1)
      && (sel.location != "all" && sel.location != "georgia" ==> Field(p, "georgia") == 0)
  {
    FilterKeepsExactly(posts, weekly, columns, sel);
  }

  /** The filter raises exactly in these cases. */
  lemma FilterErrors(posts: seq<Post>, weekly: seq<WeekRow>, columns: set<string>, sel: Selection)
    ensures var res := Filter(posts, weekly, columns, sel);
      && (res.Err? && res.error.UnknownColumn? <==> !ColumnsPresent(sel, columns))
      && (res.Err? && res.error.UnknownColumn? ==> res.error.column !in columns)
      && (res == Err(MissingBound) <==>
            ColumnsPresent(sel, columns) && sel.timeFrame != "relative" && (sel.startDate.None? || sel.endDate.None?))
      && (res == Err(NoPostToAnchor) <==>
            ColumnsPresent(sel, columns) && sel.timeFrame == "relative" && sel.relativeDate != AllDates &&
            forall p :: p in posts ==> !Admits(sel, p))
      && (res == Err(UnknownWindow(sel.relativeDate)) <==>
            ColumnsPresent(sel, columns) && sel.timeFrame == "relative" && sel.relativeDate !in DropdownLabels &&
            exists p :: p in posts && Admits(sel, p))
      && (sel.timeFrame == "relative" && sel.relativeDate == AllDates ==> (res.Ok? <==> ColumnsPresent(sel, columns)))
  {
    var res := Filter(posts, weekly, columns, sel);
    var labelled := Labelled(posts, sel);
    if labelled != [] {
      assert labelled[0] in posts && Admits(sel, labelled[0]);
    }
  }

  /** Relative mode with a window: the reported end is the latest date among
      the posts that pass the label facets, the start is the window counted
      back from it, and the posts kept are exactly those facet-passing posts
      dated on or after the start (none is later than the end, and the latest
      is kept). The weekly table gets the lower bound only. */
  lemma RelativeWindowResult(posts: seq<Post>, weekly: seq<WeekRow>, columns: set<string>, sel: Selection)
    requires sel.timeFrame == "relative" && sel.relativeDate != AllDates
    requires Filter(posts, weekly, columns, sel).Ok?
    ensures var out := Filter(posts, weekly, columns, sel).value;
      && out.start.Some? && out.end.Some?
      && (exists p :: p in posts && Admits(sel, p) && p.authoredAt == out.end.value)
      && (forall p :: p in posts && Admits(sel, p) ==> p.authoredAt <= out.end.value)
      && WindowOf(sel.relativeDate).Some?
      && out.start == WindowStart(out.end.value, WindowOf(sel.relativeDate).value)
      && out.start.value <= out.end.value
      && (forall p :: p in out.posts <==> p in posts && Admits(sel, p) && p.authoredAt >= out.start.value)
      && (forall p :: p in out.posts ==> p.authoredAt <= out.end.value)
      && (exists p :: p in out.posts && p.authoredAt == out.end.value)
      && (forall r :: r in out.weekly <==> r in weekly && r.weekAuthored >= out.start.value)
  {
    FilterKeepsExactly(posts, weekly, columns, sel);
    var out := Filter(posts, weekly, columns, sel).value;
    var anchor := MaxDay(Labelled(posts, sel));
    var p :| p in Labelled(posts, sel) && p.authoredAt == anchor;
    assert p in out.posts;
  }

  /** Relative mode over "All Dates": no date bound is applied, the start is
      None, the end is the one passed in, and the weekly table comes back
      untouched. */
  lemma AllDatesResult(posts: seq<Post>, weekly: seq<WeekRow>, columns: set<string>, sel: Selection)
    requires sel.timeFrame == "relative" && sel.relativeDate == AllDates
    requires ColumnsPresent(sel, columns)
    ensures Filter(posts, weekly, columns, sel).Ok?
    ensures var out := Filter(posts, weekly, columns, sel).value;
      && out.start == None && out.end == sel.endDate && out.weekly == weekly
      && (forall p :: p in out.posts <==> p in posts && Admits(sel, p))
  {
    FilterErrors(posts, weekly, columns, sel);
    FilterKeepsExactly(posts, weekly, columns, sel);
  }

  /** Range mode: the bounds passed in are reported back and both tables keep
      exactly the rows dated within them, inclusive at both ends. */
  lemma RangeResult(posts: seq<Post>, weekly: seq<WeekRow>, columns: set<string>, sel: Selection)
    requires sel.timeFrame != "relative"
    requires ColumnsPresent(sel, columns) && sel.startDate.Some? && sel.endDate.Some?
    ensures Filter(posts, weekly, columns, sel).Ok?
    ensures var out := Filter(posts, weekly, columns, sel).value;
      var start, end := sel.startDate.value, sel.endDate.value;
      && out.start == sel.startDate && out.end == sel.endDate
      && (forall p :: p in out.posts <==> p in posts && Admits(sel, p) && start <= p.authoredAt <= end)
      && (forall r :: r in out.weekly <==> r in weekly && start <= r.weekAuthored <= end)
  {
    FilterErrors(posts, weekly, columns, sel);
    FilterKeepsExactly(posts, weekly, columns, sel);
  }

  /** The order in which categories are selected does not matter, nor does
      selecting one twice. */
  lemma CategoryOrderIrrelevant(posts: seq<Post>, weekly: seq<WeekRow>, columns: set<string>, sel: Selection, categories: seq<string>)
    requires forall c :: c in categories <==> c in sel.categories
    ensures var other := sel.(categories := categories);
      && (Filter(posts, weekly, columns, sel).Ok? <==> Filter(posts, weekly, columns, other).Ok?)
      && (Filter(posts, weekly, columns, sel).Ok? ==> Filter(posts, weekly, columns, sel) == Filter(posts, weekly, columns, other))
  {
    var other := sel.(categories := categories);
    WhereCongruent(posts, Keeps(sel), Keeps(other));
    assert Labelled(posts, sel) == Labelled(posts, other);
    assert DateStep(Labelled(posts, sel), weekly, sel) == DateStep(Labelled(posts, other), weekly, other);
  }

  /** The label facets read neither the date mode nor the dates. */
  lemma LabelStepIgnoresDates(posts: seq<Post>, columns: set<string>, sel: Selection, other: Selection)
    requires other == sel.(timeFrame := other.timeFrame, relativeDate := other.relativeDate,
                           startDate := other.startDate, endDate := other.endDate)
    ensures LabelStep(posts, columns, sel) == LabelStep(posts, columns, other)
  {
    WhereCongruent(posts, Keeps(sel), Keeps(other));
  }

  /** In range mode, moving the start later or the end earlier never adds a
      row to either table and keeps the rows that remain in their order. */
  lemma RangeNarrows(posts: seq<Post>, weekly: seq<WeekRow>, columns: set<string>, sel: Selection, start: nat, end: nat)
    requires sel.timeFrame != "relative" && sel.startDate.Some? && sel.endDate.Some?
    requires sel.startDate.value <= start && end <= sel.endDate.value
    requires Filter(posts, weekly, columns, sel).Ok?
    ensures var wide := Filter(posts, weekly, columns, sel).value;
      var narrow := Filter(posts, weekly, columns, sel.(startDate := Some(start), endDate := Some(end)));
      && narrow.Ok?
      && IsSubsequence(narrow.value.posts, wide.posts)
      && IsSubsequence(narrow.value.weekly, wide.weekly)
  {
    var other := sel.(startDate := Some(start), endDate := Some(end));
    LabelStepIgnoresDates(posts, columns, sel, other);
    WhereNarrower(Labelled(posts, sel), Between(start, end), Between(sel.startDate.value, sel.endDate.value));
    WhereNarrower(weekly, WeekBetween(start, end), WeekBetween(sel.startDate.value, sel.endDate.value));
  }

  /** The date step, applied again to what a relative window kept, keeps it
      all: the latest post is still the anchor, so the window is unchanged. */
  lemma WindowRefilter(posts: seq<Post>, weekly: seq<WeekRow>, columns: set<string>, sel: Selection)
    requires sel.timeFrame == "relative" && sel.relativeDate != AllDates
    requires Filter(posts, weekly, columns, sel).Ok?
    ensures var out := Filter(posts, weekly, columns, sel).value;
            DateStep(out.posts, out.weekly, sel) == Ok(out)
  {
    var out := Filter(posts, weekly, columns, sel).value;
    RelativeWindowResult(posts, weekly, columns, sel);
    var anchor := out.end.value;
    var top :| top in out.posts && top.authoredAt == anchor;
    assert MaxDay(out.posts) == anchor by {
      var m := MaxDay(out.posts);
      assert m >= top.authoredAt;
    }
    WhereAll(out.posts, OnOrAfter(out.start.value));
    WhereAll(out.weekly, WeekOnOrAfter(out.start.value));
  }

  /** The date step, applied again to what a range kept, keeps it all. */
  lemma RangeRefilter(posts: seq<Post>, weekly: seq<WeekRow>, columns: set<string>, sel: Selection)
    requires sel.timeFrame != "relative"
    requires Filter(posts, weekly, columns, sel).Ok?
    ensures var out := Filter(posts, weekly, columns, sel).value;
            DateStep(out.posts, out.weekly, sel) == Ok(out)
  {
    var out := Filter(posts, weekly, columns, sel).value;
    FilterErrors(posts, weekly, columns, sel);
    RangeResult(posts, weekly, columns, sel);
    WhereAll(out.posts, Between(out.start.value, out.end.value));
    WhereAll(out.weekly, WeekBetween(out.start.value, out.end.value));
  }

  /** Applying the filter to its own output with the same arguments returns
      the same result. In relative mode this holds because the latest post
      always passes the bound counted back from its own date. */
  lemma FilterIdempotent(posts: seq<Post>, weekly: seq<WeekRow>, columns: set<string>, sel: Selection)
    requires Filter(posts, weekly, columns, sel).Ok?
    ensures var out := Filter(posts, weekly, columns, sel).value;
            Filter(out.posts, out.weekly, columns, sel) == Ok(out)
  {
    var out := Filter(posts, weekly, columns, sel).value;
    FilterKeepsExactly(posts, weekly, columns, sel);
    WhereAll(out.posts, Keeps(sel));
    assert LabelStep(out.posts, columns, sel) == Ok(out.posts);
    if sel.timeFrame == "relative" {
      if sel.relativeDate != AllDates {
        WindowRefilter(posts, weekly, columns, sel);
      }
    } else {
      RangeRefilter(posts, weekly, columns, sel);
    }
  }

  /** In range mode and under "All Dates", selecting one more category keeps
      exactly the rows of the previous result whose column is 1: never more
      rows, in the same order, with the same bounds and weekly table. */
  lemma AddCategoryNarrows(posts: seq<Post>, weekly: seq<WeekRow>, columns: set<string>, sel: Selection, c: string)
    requires sel.timeFrame != "relative" || sel.relativeDate == AllDates
    requires c in columns
    requires Filter(posts, weekly, columns, sel).Ok?
    ensures var more := sel.(categories := sel.categories + [c]);
      var out := Filter(posts, weekly, columns, sel).value;
      && Filter(posts, weekly, columns, more).Ok?
      && var narrowed := Filter(posts, weekly, columns, more).value;
      && narrowed.posts == Where(out.posts, HasValue(c, 1))
      && narrowed.weekly == out.weekly && narrowed.start == out.start && narrowed.end == out.end
      && IsSubsequence(narrowed.posts, out.posts)
      && |narrowed.posts| <= |out.posts|
  {
    var more := sel.(categories := sel.categories + [c]);
    var out := Filter(posts, weekly, columns, sel).value;
    FilterErrors(posts, weekly, columns, sel);
    FilterErrors(posts, weekly, columns, more);
    assert ColumnsPresent(more, columns);
    var labelled := Labelled(posts, sel);
    WhereWhere(posts, Keeps(sel), HasValue(c, 1), Keeps(more));
    assert Labelled(posts, more) == Where(labelled, HasValue(c, 1));
    if sel.timeFrame != "relative" {
      var start, end := sel.startDate.value, sel.endDate.value;
      var both := (p: Post) => Field(p, c) == 1 && start <= p.authoredAt <= end;
      WhereWhere(labelled, HasValue(c, 1), Between(start, end), both);
      WhereWhere(labelled, Between(start, end), HasValue(c, 1), both);
    }
    var narrowed := Filter(posts, weekly, columns, more).value;
    WhereIsSubsequence(out.posts, HasValue(c, 1));
    SubsequenceLength(narrowed.posts, out.posts);
  }

  // A three-post table on which adding a category widens a relative window.
  const Recent := Post("twitter", map["government" := 1, "media" := 0], 100, 0, [])
  const Older := Post("twitter", map["government" := 1, "media" := 1], 10, 0, [])
  const Oldest := Post("twitter", map["government" := 1, "media" := 1], 9, 0, [])
  const GovernmentWeek := Selection(["twitter"], ["government"], "all", "all", "all", "relative", "Last 7 Days", None, None)
  const GovernmentMediaWeek := GovernmentWeek.(categories := ["government", "media"])

  lemma SampleLabelled()
    ensures Labelled([Recent, Older, Oldest], GovernmentWeek) == [Recent, Older, Oldest]
    ensures Labelled([Recent, Older, Oldest], GovernmentMediaWeek) == [Older, Oldest]
  {
    var all := [Recent, Older, Oldest];
    forall p | p in all ensures Admits(GovernmentWeek, p) {
      assert Field(p, "government") == 1;
    }
    WhereAll(all, Keeps(GovernmentWeek));
    assert Field(Recent, "media") == 0 && "media" in GovernmentMediaWeek.categories;
    assert !Admits(GovernmentMediaWeek, Recent);
    forall p | p in [Older, Oldest] ensures Admits(GovernmentMediaWeek, p) {
      assert Field(p, "government") == 1 && Field(p, "media") == 1;
    }
    assert all[1..] == [Older, Oldest];
    WhereAll([Older, Oldest], Keeps(GovernmentMediaWeek));
  }

  lemma SampleLabelStep()
    ensures LabelStep([Recent, Older, Oldest], {"government", "media"}, GovernmentWeek) == Ok([Recent, Older, Oldest])
    ensures LabelStep([Recent, Older, Oldest], {"government", "media"}, GovernmentMediaWeek) == Ok([Older, Oldest])
  {
    SampleLabelled();
    assert FirstMissing(["government"], {"government", "media"}) == None;
    assert FirstMissing(["government", "media"], {"government", "media"}) == None;
  }

  lemma SampleDateStep()
    ensures DateStep([Recent, Older, Oldest], [], GovernmentWeek) == Ok(Filtered([Recent], [], Some(93), Some(100)))
    ensures DateStep([Older, Oldest], [], GovernmentMediaWeek) == Ok(Filtered([Older, Oldest], [], Some(3), Some(10)))
  {
    assert WindowOf("Last 7 Days") == Some(LastDays(7));
    assert MaxDay([Recent, Older, Oldest]) == 100;
    assert MaxDay([Older, Oldest]) == 10;
    var all := [Recent, Older, Oldest];
    assert all[1..] == [Older, Oldest] && all[1..][1..] == [Oldest] && all[1..][1..][1..] == [];
    assert Where([Oldest], OnOrAfter(93)) == [];
    assert Where([Older, Oldest], OnOrAfter(93)) == [];
    assert Where(all, OnOrAfter(93)) == [Recent];
    assert Where([Older, Oldest], OnOrAfter(3)) == [Older, Oldest];
  }

  /** Under a relative window, selecting one more category can return MORE
      posts: the anchor moves back to the latest post that still passes, and
      older posts fall inside the window. Here one post is kept for
      "government" alone and two for "government" and "media". */
  lemma AddCategoryCanWidenRelativeWindow()
    ensures Filter([Recent, Older, Oldest], [], {"government", "media"}, GovernmentWeek)
              == Ok(Filtered([Recent], [], Some(93), Some(100)))
    ensures Filter([Recent, Older, Oldest], [], {"government", "media"}, GovernmentMediaWeek)
              == Ok(Filtered([Older, Oldest], [], Some(3), Some(10)))
  {
    SampleLabelStep();
    SampleDateStep();
  }
}
