/**
 * The comment normaliser: one `comment` record per raw comment, a truncation
 * record when the page is incomplete, then the ignored-accounts filter.
 */
module Comments {
  import opened Activities
  import opened RichText

  /** The record built for one raw comment (author and timestamp copied verbatim). */
  function CommentRecord(c: RawComment): Activity {
    Comment(c.authorId, c.created, CommentText(c.body))
  }

  /** The `data.comments.map(...)`: one record per comment, in input order. */
  function CommentRecords(cs: seq<RawComment>): (r: seq<Activity>)
    ensures |r| == |cs|
    ensures forall i :: 0 <= i < |cs| ==>
      r[i].Comment? && r[i].authorId == cs[i].authorId && r[i].created == cs[i].created &&
      r[i].text == CommentText(cs[i].body)
  {
    if cs == [] then [] else [CommentRecord(cs[0])] + CommentRecords(cs[1..])
  }

  /** No comment record is a truncation record. */
  lemma {:induction false} CommentRecordsHaveNoAlert(cs: seq<RawComment>)
    ensures CountAlerts(CommentRecords(cs)) == 0
  {
    if cs != [] {
      assert CommentRecords(cs)[1..] == CommentRecords(cs[1..]);
      CommentRecordsHaveNoAlert(cs[1..]);
    }
  }

  /** `t` is an order-preserving subsequence of `s`. */
  predicate IsSubsequence<T(==)>(t: seq<T>, s: seq<T>)
    decreases |s|
  {
    if t == [] then true
    else if s == [] then false
    else if t[0] == s[0] then IsSubsequence(t[1..], s[1..])
    else IsSubsequence(t, s[1..])
  }

  /** The `filter` that drops records whose author is an ignored account. */
  function WithoutIgnored(s: seq<Activity>, ignored: seq<string>): (r: seq<Activity>)
    ensures |r| <= |s|
    ensures forall a :: a in r <==> a in s && AuthorOf(a) !in ignored
  {
    if s == [] then []
    else (if AuthorOf(s[0]) in ignored then [] else [s[0]]) + WithoutIgnored(s[1..], ignored)
  }

  /** The filter keeps the surviving records in their original order. */
  lemma {:induction false} WithoutIgnoredIsSubsequence(s: seq<Activity>, ignored: seq<string>)
    ensures IsSubsequence(WithoutIgnored(s, ignored), s)
  {
    if s != [] {
      WithoutIgnoredIsSubsequence(s[1..], ignored);
      var r := WithoutIgnored(s, ignored);
      if AuthorOf(s[0]) !in ignored {
        assert r[0] == s[0] && r[1..] == WithoutIgnored(s[1..], ignored);
      } else {
        assert r == WithoutIgnored(s[1..], ignored);
        SubsequenceSkip(r, s);
      }
    }
  }

  /** A subsequence of a tail is a subsequence of the whole sequence. */
  lemma {:induction false} SubsequenceSkip<T>(t: seq<T>, s: seq<T>)
    requires s != [] && IsSubsequence(t, s[1..])
    ensures IsSubsequence(t, s)
    decreases |s|, 0
  {
    if t != [] && t[0] == s[0] {
      // t[1..] is a subsequence of s[1..] because t is.
      SubsequenceTail(t, s[1..]);
    }
  }

  /** A subsequence's tail is a subsequence too. */
  lemma {:induction false} SubsequenceTail<T>(t: seq<T>, s: seq<T>)
    requires t != [] && IsSubsequence(t, s)
    ensures IsSubsequence(t[1..], s)
    decreases |s|, 1
  {
    if t[0] != s[0] {
      SubsequenceTail(t, s[1..]);
      SubsequenceSkip(t[1..], s);
    } else if t[1..] != [] {
      SubsequenceSkip(t[1..], s);
    }
  }

  /** Each record whose author is not ignored survives as often as it occurs;
      an ignored one never does. */
  lemma {:induction false} WithoutIgnoredCounts(s: seq<Activity>, ignored: seq<string>, a: Activity)
    ensures multiset(WithoutIgnored(s, ignored))[a] == if AuthorOf(a) in ignored then 0 else multiset(s)[a]
  {
    if s != [] {
      WithoutIgnoredCounts(s[1..], ignored, a);
      assert s == [s[0]] + s[1..];
    }
  }

  /** Filtering keeps the truncation records unless `SYSTEM` is ignored. */
  lemma {:induction false} WithoutIgnoredAlerts(s: seq<Activity>, ignored: seq<string>)
    ensures CountAlerts(WithoutIgnored(s, ignored)) == if SystemAuthor in ignored then 0 else CountAlerts(s)
  {
    if s != [] {
      WithoutIgnoredAlerts(s[1..], ignored);
      var head := if AuthorOf(s[0]) in ignored then [] else [s[0]];
      CountAlertsAppend(head, WithoutIgnored(s[1..], ignored));
    }
  }

  /** The comment list before the author filter. */
  function CommentActivity(page: CommentPage, now: int): seq<Activity> {
    WithTruncation(CommentRecords(page.comments), CommentsFeed, page.total, page.maxResults, now)
  }

  /** `convertComments`: records, truncation record, then the author filter
      (which reads the truncation record's `SYSTEM` author like any other). */
  function ConvertComments(page: CommentPage, ignored: seq<string>, now: int): (r: seq<Activity>)
    ensures forall a :: a in r ==> AuthorOf(a) !in ignored
    ensures forall a :: a in r ==>
      a.Comment? || a == SystemAlert(now, CommentsFeed, page.total, page.maxResults)
  {
    WithoutIgnored(CommentActivity(page, now), ignored)
  }

  /** Before filtering: one record per comment in input order, then exactly
      one truncation record iff `total > maxResults`. */
  lemma CommentActivityShape(page: CommentPage, now: int)
    ensures |CommentActivity(page, now)| == |page.comments| + (if page.total > page.maxResults then 1 else 0)
    ensures forall i :: 0 <= i < |page.comments| ==>
      CommentActivity(page, now)[i] == CommentRecord(page.comments[i])
    ensures CountAlerts(CommentActivity(page, now)) == if page.total > page.maxResults then 1 else 0
    ensures page.total > page.maxResults ==>
      CommentActivity(page, now)[|page.comments|] == SystemAlert(now, CommentsFeed, page.total, page.maxResults)
  {
    var recs := CommentRecords(page.comments);
    CommentRecordsHaveNoAlert(page.comments);
    TruncationAddsOneAlert(recs, CommentsFeed, page.total, page.maxResults, now);
    var r := CommentActivity(page, now);
    forall i | 0 <= i < |page.comments| ensures r[i] == CommentRecord(page.comments[i]) {
      assert r[i] == r[..|recs|][i];
    }
  }

  /** The output holds a truncation record iff the page was truncated and
      `SYSTEM` is not an ignored account; it is the filtered subsequence of
      the unfiltered list. */
  lemma ConvertCommentsSpec(page: CommentPage, ignored: seq<string>, now: int)
    ensures CountAlerts(ConvertComments(page, ignored, now))
         == if page.total > page.maxResults && SystemAuthor !in ignored then 1 else 0
    ensures IsSubsequence(ConvertComments(page, ignored, now), CommentActivity(page, now))
  {
    CommentActivityShape(page, now);
    WithoutIgnoredAlerts(CommentActivity(page, now), ignored);
    WithoutIgnoredIsSubsequence(CommentActivity(page, now), ignored);
  }

  /** A comment by an ignored account is absent from the output; one by any
      other account is present. */
  lemma ConvertCommentsKeeps(page: CommentPage, ignored: seq<string>, now: int, i: nat)
    requires i < |page.comments|
    ensures CommentRecord(page.comments[i]) in ConvertComments(page, ignored, now)
        <==> page.comments[i].authorId !in ignored
  {
    CommentActivityShape(page, now);
    assert CommentActivity(page, now)[i] == CommentRecord(page.comments[i]);
  }
}
