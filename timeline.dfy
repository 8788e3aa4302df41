/**
 * The merge chain of `fetchData`: both normalised lists concatenated,
 * falsy entries dropped (there are none among typed records), sorted by
 * `created`, newest first. The order among equal timestamps is left open.
 */
module Timeline {
  import opened Options
  import opened Activities
  import opened RichText
  import opened Comments
  import opened Changelog

  /** `created` never increases along the sequence. */
  predicate NewestFirst(s: seq<Activity>) {
    forall i, j :: 0 <= i < j < |s| ==> s[i].created >= s[j].created
  }

  /** Every record of `s` is stamped no later than `bound`. */
  predicate NotAfter(s: seq<Activity>, bound: int) {
    forall i :: 0 <= i < |s| ==> s[i].created <= bound
  }

  /** Places `a` in front of the first record not newer than it. */
  function InsertByCreated(a: Activity, s: seq<Activity>): (r: seq<Activity>)
    ensures multiset(r) == multiset(s) + multiset{a}
  {
    if s == [] || a.created >= s[0].created then [a] + s
    else
      assert s == [s[0]] + s[1..];
      [s[0]] + InsertByCreated(a, s[1..])
  }

  /** Inserting a record no later than `bound` keeps every record no later than `bound`. */
  lemma {:induction false} InsertNotAfter(a: Activity, s: seq<Activity>, bound: int)
    requires a.created <= bound && NotAfter(s, bound)
    ensures NotAfter(InsertByCreated(a, s), bound)
  {
    if s != [] && a.created < s[0].created {
      InsertNotAfter(a, s[1..], bound);
      var r := InsertByCreated(a, s);
      assert r == [s[0]] + InsertByCreated(a, s[1..]);
    }
  }

  /** Insertion keeps a sequence newest first. */
  lemma {:induction false} InsertKeepsNewestFirst(a: Activity, s: seq<Activity>)
    requires NewestFirst(s)
    ensures NewestFirst(InsertByCreated(a, s))
  {
    if s != [] && a.created < s[0].created {
      var tail := s[1..];
      assert NewestFirst(tail) by {
        forall i, j | 0 <= i < j < |tail| ensures tail[i].created >= tail[j].created {
          assert tail[i] == s[i + 1] && tail[j] == s[j + 1];
        }
      }
      assert NotAfter(tail, s[0].created) by {
        forall i | 0 <= i < |tail| ensures tail[i].created <= s[0].created {
          assert tail[i] == s[i + 1];
        }
      }
      InsertKeepsNewestFirst(a, tail);
      InsertNotAfter(a, tail, s[0].created);
      var rest := InsertByCreated(a, tail);
      var r := [s[0]] + rest;
      assert r == InsertByCreated(a, s);
      forall i, j | 0 <= i < j < |r| ensures r[i].created >= r[j].created {
        assert r[j] == rest[j - 1];
        if i > 0 {
          assert r[i] == rest[i - 1];
        }
      }
    }
  }

  /** The comparator sort `(a, b) => b.created - a.created`, as an insertion sort. */
  function SortNewestFirst(s: seq<Activity>): (r: seq<Activity>)
    ensures multiset(r) == multiset(s)
  {
    if s == [] then []
    else
      assert s == [s[0]] + s[1..];
      InsertByCreated(s[0], SortNewestFirst(s[1..]))
  }

  /** The sort's result is newest first. */
  lemma {:induction false} SortIsNewestFirst(s: seq<Activity>)
    ensures NewestFirst(SortNewestFirst(s))
  {
    if s != [] {
      SortIsNewestFirst(s[1..]);
      InsertKeepsNewestFirst(s[0], SortNewestFirst(s[1..]));
    }
  }

  /** `[comments, changes].flat().filter(a => !!a).sort(...)`. */
  function MergeTimeline(comments: seq<Activity>, changes: seq<Activity>): (r: seq<Activity>)
    ensures NewestFirst(r)
    ensures multiset(r) == multiset(comments) + multiset(changes)
  {
    SortIsNewestFirst(comments + changes);
    SortNewestFirst(comments + changes)
  }

  /** The whole transformation of `fetchData` on the two parsed payloads.
      The source reads the clock once in each converter, comments first;
      `commentsNow` and `changelogNow` are those two readings. */
  function FetchTimeline(commentPage: CommentPage, changelogPage: ChangelogPage, ignored: seq<string>,
                         commentsNow: int, changelogNow: int): (r: seq<Activity>)
    ensures NewestFirst(r)
    ensures multiset(r) == multiset(ConvertComments(commentPage, ignored, commentsNow))
                         + multiset(ConvertChangelog(changelogPage, FieldsToTrack, changelogNow))
    ensures |r| == |ConvertComments(commentPage, ignored, commentsNow)|
                 + TrackedTotal(changelogPage.values, FieldsToTrack)
                 + (if changelogPage.total > changelogPage.maxResults then 1 else 0)
    ensures forall a :: a in r <==>
      a in ConvertComments(commentPage, ignored, commentsNow) || a in ConvertChangelog(changelogPage, FieldsToTrack, changelogNow)
  {
    var r := MergeTimeline(ConvertComments(commentPage, ignored, commentsNow),
                           ConvertChangelog(changelogPage, FieldsToTrack, changelogNow));
    assert |r| == |multiset(r)|;
    forall a ensures a in r <==> a in multiset(r) {}
    r
  }

  /** Three records stamped T-3min, T-1min and T-5min come out as T-1min,
      T-3min, T-5min. */
  lemma OrderingExample(t: int, x: Activity, y: Activity, z: Activity)
    requires x.created == t - 180 && y.created == t - 60 && z.created == t - 300
    ensures MergeTimeline([x, y], [z]) == [y, x, z]
  {
    assert [x, y] + [z] == [x, y, z];
    assert InsertByCreated(y, [z]) == [y, z];
    assert SortNewestFirst([y, z]) == [y, z] by {
      assert [y, z][1..] == [z] && [z][1..] == [];
      assert SortNewestFirst([z]) == InsertByCreated(z, []) == [z];
    }
    assert InsertByCreated(x, [y, z]) == [y, x, z] by {
      assert [y, z][1..] == [z];
      assert InsertByCreated(x, [z]) == [x, z];
    }
    assert SortNewestFirst([x, y, z]) == InsertByCreated(x, SortNewestFirst([y, z])) by {
      assert [x, y, z][1..] == [y, z];
    }
  }

  /** A comment whose body is one paragraph holding the text "hello" becomes
      one comment record whose text is ["hello"]. */
  lemma HelloCommentExample(author: string, created: int)
    ensures CommentRecord(RawComment(author, created,
      Some(Node("doc", "", [Node("paragraph", "", [Node("text", "hello", [])])]))))
      == Comment(author, created, ["hello"])
  {
    var leaf := Node("text", "hello", []);
    var para := Node("paragraph", "", [leaf]);
    assert ParagraphText([leaf]) == ["hello"];
    assert DocText([para]) == BlockLines(para) + DocText([]);
  }

  /** A comment without a body reports the type `undefined`. */
  lemma MissingBodyExample(author: string, created: int)
    ensures CommentRecord(RawComment(author, created, None)).text == ["unsupported comment type: undefined"]
  {
    assert "unsupported comment type: " + TypeLabel(None) == "unsupported comment type: undefined";
  }

  /** A `priority` item is dropped; a `status` item from Open to Done gives
      one change record. */
  lemma StatusChangeExample(author: string, created: int)
    ensures ItemChanges(HistoryEntry(author, created, []),
      [ChangeItem("priority", None, Some("Low"), None, Some("High")),
       ChangeItem("status", Some("1"), Some("Open"), Some("3"), Some("Done"))], FieldsToTrack)
      == [Change(author, created, "status", Some("1"), Some("Open"), Some("3"), Some("Done"))]
  {
    var p := ChangeItem("priority", None, Some("Low"), None, Some("High"));
    var st := ChangeItem("status", Some("1"), Some("Open"), Some("3"), Some("Done"));
    assert "priority" !in FieldsToTrack;
    assert "status" in FieldsToTrack;
    assert [p, st][1..] == [st];
  }
}
