/** Optional values: a JSON field whose value may be null (or, for a comment body, absent). */
module Options {
  datatype Option<+T> = None | Some(value: T)
}

/**
 * The two Jira REST payloads the activity panel reads, and the activity
 * records it builds from them. Timestamps (`created`) are already parsed
 * into integers; larger means later.
 */
module Activities {
  import opened Options

  /** A node of an Atlassian document tree: its `type` tag, the `text` of a
      text leaf, and its ordered `content` children. */
  datatype Node = Node(kind: string, text: string, content: seq<Node>)

  /** One entry of the comments endpoint; `authorId` is `author.accountId`. */
  datatype RawComment = RawComment(authorId: string, created: int, body: Option<Node>)

  /** The comments endpoint's answer with its pagination counters. */
  datatype CommentPage = CommentPage(comments: seq<RawComment>, total: int, maxResults: int)

  /** One field change inside a changelog entry. */
  datatype ChangeItem = ChangeItem(
    field: string,
    from: Option<string>,
    fromString: Option<string>,
    to: Option<string>,
    toString: Option<string>)

  /** One entry of the changelog endpoint; `authorId` is `author.accountId`. */
  datatype HistoryEntry = HistoryEntry(authorId: string, created: int, items: seq<ChangeItem>)

  /** The changelog endpoint's answer with its pagination counters. */
  datatype ChangelogPage = ChangelogPage(values: seq<HistoryEntry>, total: int, maxResults: int)

  /** Which conversion raised a truncation record (it picks the message wording). */
  datatype Feed = CommentsFeed | ChangelogFeed

  /** A normalised timeline record. `SystemAlert` is the record the converters
      append, with author `SYSTEM`, when the server holds more results than
      it returned; its message quotes `total` and `maxResults`. */
  datatype Activity =
    | Comment(authorId: string, created: int, text: seq<string>)
    | Change(authorId: string, created: int, field: string,
             from: Option<string>, fromValue: Option<string>,
             to: Option<string>, toValue: Option<string>)
    | SystemAlert(created: int, feed: Feed, total: int, maxResults: int)

  /** The author id of the truncation record. */
  const SystemAuthor: string := "SYSTEM"

  /** The `authorId` property of a record, as the author filter reads it. */
  function AuthorOf(a: Activity): string {
    if a.SystemAlert? then SystemAuthor else a.authorId
  }

  /** Number of truncation records in a sequence. */
  function CountAlerts(s: seq<Activity>): nat {
    if s == [] then 0 else (if s[0].SystemAlert? then 1 else 0) + CountAlerts(s[1..])
  }

  lemma {:induction false} CountAlertsAppend(a: seq<Activity>, b: seq<Activity>)
    ensures CountAlerts(a + b) == CountAlerts(a) + CountAlerts(b)
  {
    if a == [] {
      assert a + b == b;
    } else {
      assert (a + b)[1..] == a[1..] + b;
      CountAlertsAppend(a[1..], b);
    }
  }

  /** The in-place `activity.push` of a truncation record: `activity` is kept
      as it is and exactly one record stamped `now` follows it when, and only
      when, the server reports more results than it returned. */
  function WithTruncation(activity: seq<Activity>, feed: Feed, total: int, maxResults: int, now: int): (r: seq<Activity>)
    ensures |r| == |activity| + (if total > maxResults then 1 else 0)
    ensures r[..|activity|] == activity
    ensures total > maxResults ==> r[|activity|] == SystemAlert(now, feed, total, maxResults)
  {
    if total > maxResults then activity + [SystemAlert(now, feed, total, maxResults)] else activity
  }

  /** Truncation adds exactly one alert when `total > maxResults` and none otherwise. */
  lemma TruncationAddsOneAlert(activity: seq<Activity>, feed: Feed, total: int, maxResults: int, now: int)
    ensures CountAlerts(WithTruncation(activity, feed, total, maxResults, now))
         == CountAlerts(activity) + (if total > maxResults then 1 else 0)
  {
    if total > maxResults {
      CountAlertsAppend(activity, [SystemAlert(now, feed, total, maxResults)]);
    }
  }
}
