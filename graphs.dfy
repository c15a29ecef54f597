/** The engagement card, `engagement_statistics`: it resolves a date span,
    anchored to today in relative mode, then counts the posts of the whole
    corpus dated within the span, both ends inclusive, and sums their
    `engagementRaw`. The module-level corpus and the wall clock are
    parameters here. */
module Graphs {
  import opened Wrappers
  import opened Rows
  import opened Posts
  import opened RelativeDates

  /** The two figures on the card. */
  datatype Totals = Totals(totalPosts: nat, totalReactions: nat)

  /** The resolved `start_date` and `end_date`; None is a bound never supplied. */
  datatype Span = Span(start: Option<nat>, end: Option<nat>)

  /** The only exception the card can raise: counting back from today passes
      0001-01-01. */
  datatype StatsError = DateOutOfRange

  /** The span `engagement_statistics` compares dates against. In relative mode
      the end is today and the start is today counted back by the window, the
      corpus's earliest date under "All Dates", or the start passed in for any
      other label; outside relative mode both bounds are those passed in. */
  function ResolveSpan(corpus: seq<Post>, timeFrame: string, relativeDate: string,
                       startDate: Option<nat>, endDate: Option<nat>, today: nat): (r: Result<Span, StatsError>)
    ensures r.Ok? ==> r.value.end == if timeFrame == "relative" then Some(today) else endDate
    ensures r.Err? ==> timeFrame == "relative" && WindowOf(relativeDate).Some?
    ensures r.Ok? && timeFrame == "relative" && WindowOf(relativeDate).Some? ==>
              r.value.start.Some? && r.value.start.value <= today
  {
    if timeFrame == "relative" then
      if relativeDate == AllDates then
        Ok(Span(if corpus == [] then None else Some(MinDay(corpus)), Some(today)))
      else
        match WindowOf(relativeDate)
        case None => Ok(Span(startDate, Some(today)))
        case Some(w) =>
          match WindowStart(today, w)
          case None => Err(DateOutOfRange)
          case Some(start) => Ok(Span(Some(start), Some(today)))
    else Ok(Span(startDate, endDate))
  }

  function InSpan(start: nat, end: nat): Post -> bool {
    (p: Post) => start <= p.authoredAt <= end
  }

  /** `sum(df['engagementRaw'])`. */
  function SumEngagement(posts: seq<Post>): nat {
    if posts == [] then 0 else posts[0].engagementRaw + SumEngagement(posts[1..])
  }

  /** `len` and `sum` of the corpus rows dated within [start, end]. */
  function SpanTotals(corpus: seq<Post>, start: nat, end: nat): (r: Totals)
    ensures r.totalPosts <= |corpus|
    ensures r.totalPosts == 0 <==> forall p :: p in corpus ==> !(start <= p.authoredAt <= end)
    ensures r.totalPosts == 0 ==> r.totalReactions == 0
  {
    var kept := Where(corpus, InSpan(start, end));
    assert kept != [] ==> kept[0] in kept;
    Totals(|kept|, SumEngagement(kept))
  }

  /** `engagement_statistics` without the markup it wraps the figures in. The
      dates are compared with the bounds directly; a missing bound compares
      false with every date, so it selects no post. */
  function EngagementStatistics(corpus: seq<Post>, timeFrame: string, relativeDate: string,
                                startDate: Option<nat>, endDate: Option<nat>, today: nat): (r: Result<Totals, StatsError>)
    ensures r.Err? <==> ResolveSpan(corpus, timeFrame, relativeDate, startDate, endDate, today).Err?
    ensures r.Ok? ==> r.value.totalPosts <= |corpus| && r.value.totalReactions <= SumEngagement(corpus)
  {
    match ResolveSpan(corpus, timeFrame, relativeDate, startDate, endDate, today)
    case Err(e) => Err(e)
    case Ok(span) =>
      if span.start.None? || span.end.None? then Ok(Totals(0, 0))
      else
        SpanTotalsBounded(corpus, span.start.value, span.end.value);
        Ok(SpanTotals(corpus, span.start.value, span.end.value))
  }

  lemma {:induction false} SumEngagementAppend(a: seq<Post>, b: seq<Post>)
    ensures SumEngagement(a + b) == SumEngagement(a) + SumEngagement(b)
  {
    if a != [] {
      assert (a + b)[1..] == a[1..] + b;
      SumEngagementAppend(a[1..], b);
    } else {
      assert a + b == b;
    }
  }

  /** The first post counts once, with its engagement, exactly when it is
      dated within the span; the rest of the table contributes the rest. */
  lemma SpanTotalsStep(corpus: seq<Post>, start: nat, end: nat)
    requires corpus != []
    ensures SpanTotals(corpus, start, end).totalPosts ==
            (if start <= corpus[0].authoredAt <= end then 1 else 0) + SpanTotals(corpus[1..], start, end).totalPosts
    ensures SpanTotals(corpus, start, end).totalReactions ==
            (if start <= corpus[0].authoredAt <= end then corpus[0].engagementRaw else 0)
              + SpanTotals(corpus[1..], start, end).totalReactions
  {
    var head := if start <= corpus[0].authoredAt <= end then [corpus[0]] else [];
    var rest := Where(corpus[1..], InSpan(start, end));
    assert Where(corpus, InSpan(start, end)) == head + rest;
    SumEngagementAppend(head, rest);
    if head != [] {
      assert head[1..] == [];
    }
  }

  /** A reference definition of the post count, one post at a time: a post
      dated within the span adds one, any other adds nothing. */
  function Count(corpus: seq<Post>, start: nat, end: nat): nat {
    if corpus == [] then 0
    else (if start <= corpus[0].authoredAt <= end then 1 else 0) + Count(corpus[1..], start, end)
  }

  /** A reference definition of the reaction total: a post dated within the
      span adds its engagement, any other adds nothing. */
  function Reactions(corpus: seq<Post>, start: nat, end: nat): nat {
    if corpus == [] then 0
    else (if start <= corpus[0].authoredAt <= end then corpus[0].engagementRaw else 0) + Reactions(corpus[1..], start, end)
  }

  /** Filtering, counting and summing, as the card does, gives the reference totals. */
  lemma {:induction false} SpanTotalsIsReference(corpus: seq<Post>, start: nat, end: nat)
    ensures SpanTotals(corpus, start, end).totalPosts == Count(corpus, start, end)
    ensures SpanTotals(corpus, start, end).totalReactions == Reactions(corpus, start, end)
  {
    if corpus != [] {
      SpanTotalsIsReference(corpus[1..], start, end);
      SpanTotalsStep(corpus, start, end);
    }
  }

  lemma {:induction false} ReferenceAppend(a: seq<Post>, b: seq<Post>, start: nat, end: nat)
    ensures Count(a + b, start, end) == Count(a, start, end) + Count(b, start, end)
    ensures Reactions(a + b, start, end) == Reactions(a, start, end) + Reactions(b, start, end)
  {
    if a != [] {
      assert (a + b)[0] == a[0];
      assert (a + b)[1..] == a[1..] + b;
      ReferenceAppend(a[1..], b, start, end);
    } else {
      assert a + b == b;
    }
  }

  /** Totals add up over the rows of a table split in two. */
  lemma SpanTotalsAppend(a: seq<Post>, b: seq<Post>, start: nat, end: nat)
    ensures SpanTotals(a + b, start, end).totalPosts ==
            SpanTotals(a, start, end).totalPosts + SpanTotals(b, start, end).totalPosts
    ensures SpanTotals(a + b, start, end).totalReactions ==
            SpanTotals(a, start, end).totalReactions + SpanTotals(b, start, end).totalReactions
  {
    SpanTotalsIsReference(a + b, start, end);
    SpanTotalsIsReference(a, start, end);
    SpanTotalsIsReference(b, start, end);
    ReferenceAppend(a, b, start, end);
  }

  lemma {:induction false} ReferenceSplit(corpus: seq<Post>, start: nat, mid: nat, end: nat)
    requires start <= mid < end
    ensures Count(corpus, start, end) == Count(corpus, start, mid) + Count(corpus, mid + 1, end)
    ensures Reactions(corpus, start, end) == Reactions(corpus, start, mid) + Reactions(corpus, mid + 1, end)
  {
    if corpus != [] {
      ReferenceSplit(corpus[1..], start, mid, end);
    }
  }

  /** Totals add up over a span split at any day. */
  lemma SpanTotalsSplit(corpus: seq<Post>, start: nat, mid: nat, end: nat)
    requires start <= mid < end
    ensures SpanTotals(corpus, start, end).totalPosts ==
            SpanTotals(corpus, start, mid).totalPosts + SpanTotals(corpus, mid + 1, end).totalPosts
    ensures SpanTotals(corpus, start, end).totalReactions ==
            SpanTotals(corpus, start, mid).totalReactions + SpanTotals(corpus, mid + 1, end).totalReactions
  {
    SpanTotalsIsReference(corpus, start, end);
    SpanTotalsIsReference(corpus, start, mid);
    SpanTotalsIsReference(corpus, mid + 1, end);
    ReferenceSplit(corpus, start, mid, end);
  }

  /** An empty span (start after end) counts nothing. */
  lemma {:induction false} EmptySpanCountsNothing(corpus: seq<Post>, start: nat, end: nat)
    requires start > end
    ensures SpanTotals(corpus, start, end) == Totals(0, 0)
  {
    if corpus != [] {
      EmptySpanCountsNothing(corpus[1..], start, end);
    }
  }

  /** A span covering every post counts the whole corpus. */
  lemma SpanCoveringAll(corpus: seq<Post>, start: nat, end: nat)
    requires forall p :: p in corpus ==> start <= p.authoredAt <= end
    ensures SpanTotals(corpus, start, end) == Totals(|corpus|, SumEngagement(corpus))
  {
    WhereAll(corpus, InSpan(start, end));
  }

  /** The totals never exceed those of the whole corpus, and no post means no
      reaction. */
  lemma {:induction false} SpanTotalsBounded(corpus: seq<Post>, start: nat, end: nat)
    ensures SpanTotals(corpus, start, end).totalPosts <= |corpus|
    ensures SpanTotals(corpus, start, end).totalReactions <= SumEngagement(corpus)
    ensures SpanTotals(corpus, start, end).totalPosts == 0 ==> SpanTotals(corpus, start, end).totalReactions == 0
  {
    if corpus != [] {
      SpanTotalsBounded(corpus[1..], start, end);
      SpanTotalsStep(corpus, start, end);
    }
  }

  /** How the span resolves. Relative mode ends today and starts the window's
      length before it, at the corpus's earliest date under "All Dates", or at
      the start passed in for a label the dropdown does not offer; outside
      relative mode the bounds passed in are kept. */
  lemma ResolveSpanCases(corpus: seq<Post>, timeFrame: string, relativeDate: string,
                         startDate: Option<nat>, endDate: Option<nat>, today: nat)
    ensures var r := ResolveSpan(corpus, timeFrame, relativeDate, startDate, endDate, today);
      && (timeFrame != "relative" ==> r == Ok(Span(startDate, endDate)))
      && (timeFrame == "relative" && r.Ok? ==> r.value.end == Some(today))
      && (timeFrame == "relative" && relativeDate !in DropdownLabels ==> r == Ok(Span(startDate, Some(today))))
      && (timeFrame == "relative" && relativeDate == AllDates && corpus != [] ==>
            r.Ok? && r.value.start.Some? &&
            (forall p :: p in corpus ==> r.value.start.value <= p.authoredAt) &&
            (exists p :: p in corpus && p.authoredAt == r.value.start.value))
      && (timeFrame == "relative" && WindowOf(relativeDate).Some? && WindowOf(relativeDate).value.LastDays? ==>
            var k := WindowOf(relativeDate).value.days;
            (r.Ok? <==> k <= today) && (r.Ok? ==> r.value.start == Some(today - k)))
      && (timeFrame == "relative" && relativeDate == "Last 6 Months" ==>
            (r.Ok? <==> Calendar.MinusMonths(today, 6).Some?) && (r.Ok? ==> r.value.start == Calendar.MinusMonths(today, 6)))
      && (timeFrame == "relative" && relativeDate == "Last 1 Year" ==>
            (r.Ok? <==> Calendar.MinusMonths(today, 12).Some?) && (r.Ok? ==> r.value.start == Calendar.MinusMonths(today, 12)))
      && (r.Ok? && r.value.start.Some? && timeFrame == "relative" && relativeDate in DropdownLabels && relativeDate != AllDates ==>
            r.value.start.value <= today)
  {
  }

  /** Once the span resolves to two bounds, the card shows the totals over
      that span. */
  lemma StatisticsOverSpan(corpus: seq<Post>, timeFrame: string, relativeDate: string,
                           startDate: Option<nat>, endDate: Option<nat>, today: nat, start: nat, end: nat)
    requires ResolveSpan(corpus, timeFrame, relativeDate, startDate, endDate, today) == Ok(Span(Some(start), Some(end)))
    ensures EngagementStatistics(corpus, timeFrame, relativeDate, startDate, endDate, today) == Ok(SpanTotals(corpus, start, end))
  {
  }

  /** A bound that is never supplied selects nothing: range mode without a
      start or an end, a relative label the dropdown does not offer with no
      start passed in, and "All Dates" over an empty corpus all show zeros. */
  lemma MissingBoundCountsNothing(corpus: seq<Post>, timeFrame: string, relativeDate: string,
                                  startDate: Option<nat>, endDate: Option<nat>, today: nat)
    ensures timeFrame != "relative" && (startDate.None? || endDate.None?) ==>
              EngagementStatistics(corpus, timeFrame, relativeDate, startDate, endDate, today) == Ok(Totals(0, 0))
    ensures timeFrame == "relative" && relativeDate !in DropdownLabels && startDate.None? ==>
              EngagementStatistics(corpus, timeFrame, relativeDate, startDate, endDate, today) == Ok(Totals(0, 0))
    ensures timeFrame == "relative" && relativeDate == AllDates && corpus == [] ==>
              EngagementStatistics(corpus, timeFrame, relativeDate, startDate, endDate, today) == Ok(Totals(0, 0))
  {
  }

  /** "All Dates" over a corpus none of whose posts is dated after today counts
      every post and every reaction. */
  lemma AllDatesCountsEverything(corpus: seq<Post>, startDate: Option<nat>, endDate: Option<nat>, today: nat)
    requires forall p :: p in corpus ==> p.authoredAt <= today
    ensures EngagementStatistics(corpus, "relative", AllDates, startDate, endDate, today)
              == Ok(Totals(|corpus|, SumEngagement(corpus)))
  {
    if corpus != [] {
      var first := MinDay(corpus);
      assert ResolveSpan(corpus, "relative", AllDates, startDate, endDate, today) == Ok(Span(Some(first), Some(today)));
      StatisticsOverSpan(corpus, "relative", AllDates, startDate, endDate, today, first, today);
      SpanCoveringAll(corpus, first, today);
    }
  }

  /** The totals read only dates and `engagementRaw`: platform, label and
      topic columns, and with them every sidebar facet, play no part. */
  lemma {:induction false} TotalsIgnoreFacets(c1: seq<Post>, c2: seq<Post>, start: nat, end: nat)
    requires |c1| == |c2|
    requires forall i :: 0 <= i < |c1| ==> c1[i].authoredAt == c2[i].authoredAt && c1[i].engagementRaw == c2[i].engagementRaw
    ensures SpanTotals(c1, start, end) == SpanTotals(c2, start, end)
  {
    if c1 != [] {
      TotalsIgnoreFacets(c1[1..], c2[1..], start, end);
      SpanTotalsStep(c1, start, end);
      SpanTotalsStep(c2, start, end);
    }
  }

  /** The earliest date depends only on the dates. */
  lemma {:induction false} MinDayIgnoresFacets(c1: seq<Post>, c2: seq<Post>)
    requires c1 != [] && |c1| == |c2|
    requires forall i :: 0 <= i < |c1| ==> c1[i].authoredAt == c2[i].authoredAt
    ensures MinDay(c1) == MinDay(c2)
  {
    if |c1| > 1 {
      MinDayIgnoresFacets(c1[1..], c2[1..]);
    }
  }

  /** The span resolves alike over two corpora with the same dates. */
  lemma ResolveSpanIgnoresFacets(c1: seq<Post>, c2: seq<Post>, timeFrame: string, relativeDate: string,
                                 startDate: Option<nat>, endDate: Option<nat>, today: nat)
    requires |c1| == |c2|
    requires forall i :: 0 <= i < |c1| ==> c1[i].authoredAt == c2[i].authoredAt
    ensures ResolveSpan(c1, timeFrame, relativeDate, startDate, endDate, today)
            == ResolveSpan(c2, timeFrame, relativeDate, startDate, endDate, today)
  {
    if c1 != [] {
      MinDayIgnoresFacets(c1, c2);
    }
  }

  /** The whole card ignores the facets, and an empty corpus shows zeros
      whenever the span resolves. */
  lemma StatisticsIgnoreFacets(c1: seq<Post>, c2: seq<Post>, timeFrame: string, relativeDate: string,
                               startDate: Option<nat>, endDate: Option<nat>, today: nat)
    requires |c1| == |c2|
    requires forall i :: 0 <= i < |c1| ==> c1[i].authoredAt == c2[i].authoredAt && c1[i].engagementRaw == c2[i].engagementRaw
    ensures EngagementStatistics(c1, timeFrame, relativeDate, startDate, endDate, today)
            == EngagementStatistics(c2, timeFrame, relativeDate, startDate, endDate, today)
    ensures c1 == [] && EngagementStatistics(c1, timeFrame, relativeDate, startDate, endDate, today).Ok? ==>
            EngagementStatistics(c1, timeFrame, relativeDate, startDate, endDate, today) == Ok(Totals(0, 0))
  {
    ResolveSpanIgnoresFacets(c1, c2, timeFrame, relativeDate, startDate, endDate, today);
    var r := ResolveSpan(c1, timeFrame, relativeDate, startDate, endDate, today);
    if r.Ok? && r.value.start.Some? && r.value.end.Some? {
      TotalsIgnoreFacets(c1, c2, r.value.start.value, r.value.end.value);
    }
  }

  /** Two posts with engagement 5 and 7 inside the span total 12 reactions. */
  lemma TwoPostsTotalTwelve(a: Post, b: Post, start: nat, end: nat)
    requires a.engagementRaw == 5 && b.engagementRaw == 7
    requires start <= a.authoredAt <= end && start <= b.authoredAt <= end
    ensures SpanTotals([a, b], start, end) == Totals(2, 12)
  {
    assert [a, b][1..] == [b];
    assert [b][1..] == [];
    SpanTotalsStep([a, b], start, end);
    SpanTotalsStep([b], start, end);
    assert Where([], InSpan(start, end)) == [];
  }
}
