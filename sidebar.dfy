/** The sidebar's facet filter, `dataframe_filter`: it narrows the post table
    by platform, by every selected account category, by identity, by account
    type and by location, then bounds it by date, either counting back from
    the latest post that survived the label facets (relative mode) or by an
    explicit inclusive range. The weekly keyword table gets the same date
    bound and nothing else. */
module Sidebar {
  import opened Wrappers
  import opened Rows
  import opened Posts
  import opened RelativeDates

  /** The facet arguments of `dataframe_filter`, in its parameter order. The
      range bounds arrive already parsed to day numbers; None is a bound the
      date picker did not supply. */
  datatype Selection = Selection(
    platforms: seq<string>,
    categories: seq<string>,
    identity: string,
    accountType: string,
    location: string,
    timeFrame: string,
    relativeDate: string,
    startDate: Option<nat>,
    endDate: Option<nat>)

  /** The four values `dataframe_filter` returns. */
  datatype Filtered = Filtered(posts: seq<Post>, weekly: seq<WeekRow>, start: Option<nat>, end: Option<nat>)

  /** The exceptions the filter raises. */
  datatype FilterError =
    | UnknownColumn(column: string)  // a facet names a column the frame lacks
    | NoPostToAnchor                 // a relative window over an empty selection has no latest date
    | UnknownWindow(text: string)    // a relative window the dropdown does not offer leaves no start
    | DateOutOfRange                 // counting back passes 0001-01-01
    | MissingBound                   // range mode without a start or an end

  // Row masks, one per selection step.

  function OnPlatforms(platforms: seq<string>): Post -> bool {
    (p: Post) => p.platform in platforms
  }

  function HasValue(column: string, value: int): Post -> bool {
    (p: Post) => Field(p, column) == value
  }

  function OnOrAfter(start: nat): Post -> bool {
    (p: Post) => p.authoredAt >= start
  }

  function Between(start: nat, end: nat): Post -> bool {
    (p: Post) => start <= p.authoredAt <= end
  }

  function WeekOnOrAfter(start: nat): WeekRow -> bool {
    (r: WeekRow) => r.weekAuthored >= start
  }

  function WeekBetween(start: nat, end: nat): WeekRow -> bool {
    (r: WeekRow) => start <= r.weekAuthored <= end
  }

  // The label facets as one row predicate.

  predicate AllOnes(p: Post, columns: seq<string>) {
    forall c :: c in columns ==> Field(p, c) == 1
  }

  /** "all", or the identity column equals 1. */
  predicate IdentityOk(identity: string, p: Post) {
    identity == "all" || Field(p, identity) == 1
  }

  /** "all"; the flag column equals 1 for the positive choice and 0 for any other. */
  predicate FlagOk(choice: string, column: string, p: Post) {
    choice == "all" || Field(p, column) == (if choice == column then 1 else 0)
  }

  predicate Admits(sel: Selection, p: Post) {
    && p.platform in sel.platforms
    && AllOnes(p, sel.categories)
    && IdentityOk(sel.identity, p)
    && FlagOk(sel.accountType, "institutional", p)
    && FlagOk(sel.location, "georgia", p)
  }

  function Keeps(sel: Selection): Post -> bool {
    (p: Post) => Admits(sel, p)
  }

  /** The posts that pass the platform and label facets, in table order. */
  function Labelled(posts: seq<Post>, sel: Selection): seq<Post> {
    Where(posts, Keeps(sel))
  }

  /** The first name not among `columns`, if any. */
  function FirstMissing(names: seq<string>, columns: set<string>): (r: Option<string>)
    ensures r.None? <==> forall x :: x in names ==> x in columns
    ensures r.Some? ==> r.value in names && r.value !in columns
  {
    if names == [] then None
    else if names[0] !in columns then Some(names[0])
    else FirstMissing(names[1..], columns)
  }

  /** The label half of `dataframe_filter`: looking up a column the frame
      lacks raises, at the first such lookup; otherwise the posts passing
      every label facet. */
  function LabelStep(posts: seq<Post>, columns: set<string>, sel: Selection): Result<seq<Post>, FilterError> {
    match FirstMissing(sel.categories, columns)
    case Some(c) => Err(UnknownColumn(c))
    case None =>
      if sel.identity != "all" && sel.identity !in columns then Err(UnknownColumn(sel.identity))
      else if sel.accountType != "all" && "institutional" !in columns then Err(UnknownColumn("institutional"))
      else if sel.location != "all" && "georgia" !in columns then Err(UnknownColumn("georgia"))
      else Ok(Labelled(posts, sel))
  }

  /** The date half of `dataframe_filter`, given the label-filtered posts. */
  function DateStep(labelled: seq<Post>, weekly: seq<WeekRow>, sel: Selection): Result<Filtered, FilterError> {
    if sel.timeFrame == "relative" then
      if sel.relativeDate == AllDates then Ok(Filtered(labelled, weekly, None, sel.endDate))
      else if labelled == [] then Err(NoPostToAnchor)
      else
        var anchor := MaxDay(labelled);
        match WindowOf(sel.relativeDate)
        case None => Err(UnknownWindow(sel.relativeDate))
        case Some(w) =>
          match WindowStart(anchor, w)
          case None => Err(DateOutOfRange)
          case Some(start) =>
            Ok(Filtered(Where(labelled, OnOrAfter(start)), Where(weekly, WeekOnOrAfter(start)), Some(start), Some(anchor)))
    else if sel.startDate.None? || sel.endDate.None? then Err(MissingBound)
    else
      var start, end := sel.startDate.value, sel.endDate.value;
      Ok(Filtered(Where(labelled, Between(start, end)), Where(weekly, WeekBetween(start, end)), Some(start), Some(end)))
  }

  /** What `dataframe_filter` computes, stated declaratively. */
  function Filter(posts: seq<Post>, weekly: seq<WeekRow>, columns: set<string>, sel: Selection): Result<Filtered, FilterError> {
    match LabelStep(posts, columns, sel)
    case Err(e) => Err(e)
    case Ok(labelled) => DateStep(labelled, weekly, sel)
  }

  lemma {:induction false} FirstMissingAfter(done: seq<string>, rest: seq<string>, columns: set<string>)
    requires forall x :: x in done ==> x in columns
    ensures FirstMissing(done + rest, columns) == FirstMissing(rest, columns)
  {
    if done != [] {
      assert (done + rest)[1..] == done[1..] + rest;
      FirstMissingAfter(done[1..], rest, columns);
    } else {
      assert done + rest == rest;
    }
  }

  /** `dataframe_filter`: the label facets, then the date bound. */
  method DataframeFilter(posts: seq<Post>, weekly: seq<WeekRow>, columns: set<string>, sel: Selection)
    returns (res: Result<Filtered, FilterError>)
    ensures res == Filter(posts, weekly, columns, sel)
  {
    var labelled := ApplyLabelFacets(posts, columns, sel);
    if labelled.Err? {
      return Err(labelled.error);
    }
    res := ApplyDateBound(labelled.value, weekly, sel);
  }

  /** Platform membership, then each account category in turn, reassigning
      the selection at every step. */
  method ApplyCategories(posts: seq<Post>, columns: set<string>, sel: Selection)
    returns (res: Result<seq<Post>, FilterError>)
    ensures FirstMissing(sel.categories, columns).Some? ==> res == Err(UnknownColumn(FirstMissing(sel.categories, columns).value))
    ensures FirstMissing(sel.categories, columns).None? ==> res == Ok(Where(posts, AfterCategories(sel)))
  {
    var filtered := Where(posts, OnPlatforms(sel.platforms));
    WhereCongruent(posts, OnPlatforms(sel.platforms), FirstCategories(sel, 0));
    for i := 0 to |sel.categories|
      invariant forall c :: c in sel.categories[..i] ==> c in columns
      invariant filtered == Where(posts, FirstCategories(sel, i))
    {
      var account := sel.categories[i];
      if account !in columns {
        MissingCategory(sel.categories, i, columns);
        return Err(UnknownColumn(account));
      }
      NextCategory(sel, i);
      WhereWhere(posts, FirstCategories(sel, i), HasValue(account, 1), FirstCategories(sel, i + 1));
      filtered := Where(filtered, HasValue(account, 1));
    }
    WhereCongruent(posts, FirstCategories(sel, |sel.categories|), AfterCategories(sel));
    return Ok(filtered);
  }

  /** The selection after the platform facet and the first `i` categories. */
  function FirstCategories(sel: Selection, i: nat): Post -> bool
    requires i <= |sel.categories|
  {
    (p: Post) => p.platform in sel.platforms && AllOnes(p, sel.categories[..i])
  }

  /** One more category adds one more column that must equal 1. */
  lemma NextCategory(sel: Selection, i: nat)
    requires i < |sel.categories|
    ensures forall p :: FirstCategories(sel, i + 1)(p) ==
                        (FirstCategories(sel, i)(p) && HasValue(sel.categories[i], 1)(p))
  {
    assert sel.categories[..i + 1] == sel.categories[..i] + [sel.categories[i]];
  }

  /** The first category the loop finds missing is the one FirstMissing reports. */
  lemma MissingCategory(categories: seq<string>, i: nat, columns: set<string>)
    requires i < |categories| && categories[i] !in columns
    requires forall c :: c in categories[..i] ==> c in columns
    ensures FirstMissing(categories, columns) == Some(categories[i])
  {
    FirstMissingAfter(categories[..i], categories[i..], columns);
    assert categories[..i] + categories[i..] == categories;
  }

  // The selection after each label facet.

  function AfterCategories(sel: Selection): Post -> bool {
    (p: Post) => p.platform in sel.platforms && AllOnes(p, sel.categories)
  }

  function AfterIdentity(sel: Selection): Post -> bool {
    (p: Post) => AfterCategories(sel)(p) && IdentityOk(sel.identity, p)
  }

  function AfterType(sel: Selection): Post -> bool {
    (p: Post) => AfterIdentity(sel)(p) && FlagOk(sel.accountType, "institutional", p)
  }

  /** The label facets of `dataframe_filter`, in source order. */
  method ApplyLabelFacets(posts: seq<Post>, columns: set<string>, sel: Selection)
    returns (res: Result<seq<Post>, FilterError>)
    ensures res == LabelStep(posts, columns, sel)
  {
    var filtered := ApplyCategories(posts, columns, sel);
    if filtered.Err? {
      return filtered;
    }
    assert filtered.value == Where(posts, AfterCategories(sel));

    // Account identity.
    if sel.identity != "all" {
      if sel.identity !in columns {
        return Err(UnknownColumn(sel.identity));
      }
      WhereWhere(posts, AfterCategories(sel), HasValue(sel.identity, 1), AfterIdentity(sel));
      filtered := Ok(Where(filtered.value, HasValue(sel.identity, 1)));
    } else {
      WhereCongruent(posts, AfterCategories(sel), AfterIdentity(sel));
    }
    assert filtered.value == Where(posts, AfterIdentity(sel));

    // Account type.
    if sel.accountType != "all" {
      if "institutional" !in columns {
        return Err(UnknownColumn("institutional"));
      }
      var value := if sel.accountType == "institutional" then 1 else 0;
      WhereWhere(posts, AfterIdentity(sel), HasValue("institutional", value), AfterType(sel));
      filtered := Ok(Where(filtered.value, HasValue("institutional", value)));
    } else {
      WhereCongruent(posts, AfterIdentity(sel), AfterType(sel));
    }
    assert filtered.value == Where(posts, AfterType(sel));

    // Account location.
    if sel.location != "all" {
      if "georgia" !in columns {
        return Err(UnknownColumn("georgia"));
      }
      var value := if sel.location == "georgia" then 1 else 0;
      WhereWhere(posts, AfterType(sel), HasValue("georgia", value), Keeps(sel));
      filtered := Ok(Where(filtered.value, HasValue("georgia", value)));
    } else {
      WhereCongruent(posts, AfterType(sel), Keeps(sel));
    }
    return filtered;
  }

  /** The date bound of `dataframe_filter`, applied to the label-filtered
      posts and to the weekly table. */
  method ApplyDateBound(labelled: seq<Post>, weekly: seq<WeekRow>, sel: Selection)
    returns (res: Result<Filtered, FilterError>)
    ensures res == DateStep(labelled, weekly, sel)
  {
    var filtered := labelled;
    var filteredWeekly := weekly;
    if sel.timeFrame == "relative" {
      var start: Option<nat> := None;
      var end := sel.endDate;
      if sel.relativeDate != AllDates {
        if filtered == [] {
          return Err(NoPostToAnchor);
        }
        var current := MaxDay(filtered);
        end := Some(current);
        var window := WindowOf(sel.relativeDate);
        if window.None? {
          return Err(UnknownWindow(sel.relativeDate));
        }
        start := WindowStart(current, window.value);
        if start.None? {
          return Err(DateOutOfRange);
        }
        filtered := Where(filtered, OnOrAfter(start.value));
        filteredWeekly := Where(filteredWeekly, WeekOnOrAfter(start.value));
      }
      return Ok(Filtered(filtered, filteredWeekly, start, end));
    } else {
      if sel.startDate.None? || sel.endDate.None? {
        return Err(MissingBound);
      }
      var start, end := sel.startDate.value, sel.endDate.value;
      filtered := Where(filtered, Between(start, end));
      filteredWeekly := Where(filteredWeekly, WeekBetween(start, end));
      return Ok(Filtered(filtered, filteredWeekly, Some(start), Some(end)));
    }
  }
}
