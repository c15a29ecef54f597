/** The rows of the dashboard's two tables. A post's `authoredAt` is already a
    day (the loader truncates timestamps to dates); its 0/1 label and topic
    columns are kept in `labels`, addressed by column name. */
module Posts {

  datatype Post = Post(
    platform: string,
    labels: map<string, int>,
    authoredAt: nat,
    engagementRaw: nat,
    topics: seq<string>)

  /** A row of the weekly keyword table, keyed by the first day of its week. */
  datatype WeekRow = WeekRow(weekAuthored: nat, keywords: seq<string>)

  /** The value of a label or topic column on a post. In a data frame every row
      has every column; callers look up only columns the frame has, and a
      column a row lacks reads as 0. */
  function Field(p: Post, column: string): int {
    if column in p.labels then p.labels[column] else 0
  }

  /** The latest `authoredAt` in a non-empty table. */
  function MaxDay(posts: seq<Post>): (m: nat)
    requires posts != []
    ensures forall p :: p in posts ==> p.authoredAt <= m
    ensures exists p :: p in posts && p.authoredAt == m
  {
    if |posts| == 1 then posts[0].authoredAt
    else
      var rest := MaxDay(posts[1..]);
      if posts[0].authoredAt >= rest then posts[0].authoredAt else rest
  }

  /** The earliest `authoredAt` in a non-empty table. */
  function MinDay(posts: seq<Post>): (m: nat)
    requires posts != []
    ensures forall p :: p in posts ==> m <= p.authoredAt
    ensures exists p :: p in posts && p.authoredAt == m
  {
    if |posts| == 1 then posts[0].authoredAt
    else
      var rest := MinDay(posts[1..]);
      if posts[0].authoredAt <= rest then posts[0].authoredAt else rest
  }
}
