/**
 * The changelog normaliser: every history entry fans out into one `change`
 * record per item whose field is tracked; the per-entry lists are then
 * flattened behind which a truncation record may follow. There is no
 * author filter here.
 */
module Changelog {
  import opened Activities

  /** The fields whose changes the panel shows. */
  const FieldsToTrack: seq<string> := ["assignee", "status", "Test Engineer", "Reviewer", "description"]

  /** The record for one tracked item of entry `v`: the entry's author and
      timestamp, the item's field, ids and display strings. */
  function ChangeOf(v: HistoryEntry, item: ChangeItem): Activity {
    Change(v.authorId, v.created, item.field, item.from, item.fromString, item.to, item.toString)
  }

  /** How many of `items` change a tracked field. */
  function TrackedCount(items: seq<ChangeItem>, tracked: seq<string>): nat {
    if items == [] then 0 else (if items[0].field in tracked then 1 else 0) + TrackedCount(items[1..], tracked)
  }

  /** The records `items` give for entry `v`: one per tracked item, in item order. */
  function ItemChanges(v: HistoryEntry, items: seq<ChangeItem>, tracked: seq<string>): (r: seq<Activity>)
    ensures |r| == TrackedCount(items, tracked)
  {
    if items == [] then []
    else (if items[0].field in tracked then [ChangeOf(v, items[0])] else []) + ItemChanges(v, items[1..], tracked)
  }

  /** Each record an entry gives is the copy of one of its tracked items. */
  lemma {:induction false} ItemChangesProvenance(v: HistoryEntry, items: seq<ChangeItem>, tracked: seq<string>, k: nat)
    requires k < |ItemChanges(v, items, tracked)|
    ensures exists i :: 0 <= i < |items| && items[i].field in tracked && ItemChanges(v, items, tracked)[k] == ChangeOf(v, items[i])
  {
    var head := if items[0].field in tracked then [ChangeOf(v, items[0])] else [];
    if k >= |head| {
      ItemChangesProvenance(v, items[1..], tracked, k - |head|);
      var i :| 0 <= i < |items[1..]| && items[1..][i].field in tracked
        && ItemChanges(v, items[1..], tracked)[k - |head|] == ChangeOf(v, items[1..][i]);
      assert items[i + 1] == items[1..][i];
    } else {
      assert ItemChanges(v, items, tracked)[k] == ChangeOf(v, items[0]);
    }
  }

  /** Fan-out distributes over concatenation of item lists. */
  lemma {:induction false} ItemChangesAppend(v: HistoryEntry, a: seq<ChangeItem>, b: seq<ChangeItem>, tracked: seq<string>)
    ensures ItemChanges(v, a + b, tracked) == ItemChanges(v, a, tracked) + ItemChanges(v, b, tracked)
  {
    if a == [] {
      assert a + b == b;
    } else {
      assert (a + b)[1..] == a[1..] + b;
      ItemChangesAppend(v, a[1..], b, tracked);
    }
  }

  /** The loop over `v.items` that pushes into `res`. */
  method CollectEntryChanges(v: HistoryEntry, tracked: seq<string>) returns (res: seq<Activity>)
    ensures res == ItemChanges(v, v.items, tracked)
    ensures |res| == TrackedCount(v.items, tracked)
  {
    res := [];
    for i := 0 to |v.items|
      invariant res == ItemChanges(v, v.items[..i], tracked)
    {
      var item := v.items[i];
      if item.field in tracked {
        res := res + [Change(v.authorId, v.created, item.field, item.from, item.fromString, item.to, item.toString)];
      }
      assert v.items[..i + 1] == v.items[..i] + [item];
      ItemChangesAppend(v, v.items[..i], [item], tracked);
    }
    assert v.items[..|v.items|] == v.items;
  }

  /** Every record an entry gives is a tracked change carrying the entry's
      author and timestamp. */
  lemma {:induction false} ItemChangesShape(v: HistoryEntry, items: seq<ChangeItem>, tracked: seq<string>)
    ensures forall a :: a in ItemChanges(v, items, tracked) ==>
      a.Change? && a.authorId == v.authorId && a.created == v.created && a.field in tracked
  {
    forall a | a in ItemChanges(v, items, tracked)
      ensures a.Change? && a.authorId == v.authorId && a.created == v.created && a.field in tracked
    {
      var k :| 0 <= k < |ItemChanges(v, items, tracked)| && ItemChanges(v, items, tracked)[k] == a;
      ItemChangesProvenance(v, items, tracked, k);
    }
  }

  /** The number of tracked items over all entries. */
  function TrackedTotal(values: seq<HistoryEntry>, tracked: seq<string>): nat {
    if values == [] then 0 else TrackedCount(values[0].items, tracked) + TrackedTotal(values[1..], tracked)
  }

  /** `data.values.map(...)` followed by `flat()`: the entries' records,
      concatenated in entry order. */
  function HistoryChanges(values: seq<HistoryEntry>, tracked: seq<string>): (r: seq<Activity>)
    ensures |r| == TrackedTotal(values, tracked)
  {
    if values == [] then [] else ItemChanges(values[0], values[0].items, tracked) + HistoryChanges(values[1..], tracked)
  }

  /** Flattening distributes over concatenation of entry lists. */
  lemma {:induction false} HistoryChangesAppend(a: seq<HistoryEntry>, b: seq<HistoryEntry>, tracked: seq<string>)
    ensures HistoryChanges(a + b, tracked) == HistoryChanges(a, tracked) + HistoryChanges(b, tracked)
  {
    if a == [] {
      assert a + b == b;
    } else {
      assert (a + b)[1..] == a[1..] + b;
      HistoryChangesAppend(a[1..], b, tracked);
    }
  }

  /** An entry without tracked items leaves no trace: the timeline is the
      same as if the entry were absent. */
  lemma UntrackedEntryVanishes(pre: seq<HistoryEntry>, v: HistoryEntry, post: seq<HistoryEntry>, tracked: seq<string>)
    requires forall i :: 0 <= i < |v.items| ==> v.items[i].field !in tracked
    ensures HistoryChanges(pre + [v] + post, tracked) == HistoryChanges(pre + post, tracked)
  {
    NoTrackedItems(v.items, tracked);
    HistoryChangesAppend(pre + [v], post, tracked);
    HistoryChangesAppend(pre, [v], tracked);
    HistoryChangesAppend(pre, post, tracked);
  }

  lemma {:induction false} NoTrackedItems(items: seq<ChangeItem>, tracked: seq<string>)
    requires forall i :: 0 <= i < |items| ==> items[i].field !in tracked
    ensures TrackedCount(items, tracked) == 0
  {
    if items != [] {
      NoTrackedItems(items[1..], tracked);
    }
  }

  /** No change record is a truncation record. */
  lemma {:induction false} HistoryChangesHaveNoAlert(values: seq<HistoryEntry>, tracked: seq<string>)
    ensures CountAlerts(HistoryChanges(values, tracked)) == 0
    ensures forall a :: a in HistoryChanges(values, tracked) ==> a.Change? && a.field in tracked
  {
    if values != [] {
      var head := ItemChanges(values[0], values[0].items, tracked);
      ItemChangesShape(values[0], values[0].items, tracked);
      HistoryChangesHaveNoAlert(values[1..], tracked);
      CountAlertsAppend(head, HistoryChanges(values[1..], tracked));
      NoAlertIn(head);
    }
  }

  lemma {:induction false} NoAlertIn(s: seq<Activity>)
    requires forall a :: a in s ==> a.Change?
    ensures CountAlerts(s) == 0
  {
    if s != [] {
      assert s[0] in s;
      NoAlertIn(s[1..]);
    }
  }

  /** `convertChangelog`: the flattened change records, then the truncation record. */
  function ConvertChangelog(page: ChangelogPage, tracked: seq<string>, now: int): (r: seq<Activity>)
    ensures |r| == TrackedTotal(page.values, tracked) + (if page.total > page.maxResults then 1 else 0)
  {
    WithTruncation(HistoryChanges(page.values, tracked), ChangelogFeed, page.total, page.maxResults, now)
  }

  /** Every record but a trailing truncation record is a tracked change;
      that record is there exactly when `total > maxResults`. */
  lemma ConvertChangelogSpec(page: ChangelogPage, tracked: seq<string>, now: int)
    ensures CountAlerts(ConvertChangelog(page, tracked, now)) == if page.total > page.maxResults then 1 else 0
    ensures forall k :: 0 <= k < TrackedTotal(page.values, tracked) ==>
      ConvertChangelog(page, tracked, now)[k].Change? && ConvertChangelog(page, tracked, now)[k].field in tracked
    ensures page.total > page.maxResults ==>
      ConvertChangelog(page, tracked, now)[TrackedTotal(page.values, tracked)]
        == SystemAlert(now, ChangelogFeed, page.total, page.maxResults)
  {
    var changes := HistoryChanges(page.values, tracked);
    HistoryChangesHaveNoAlert(page.values, tracked);
    TruncationAddsOneAlert(changes, ChangelogFeed, page.total, page.maxResults, now);
    var r := ConvertChangelog(page, tracked, now);
    forall k | 0 <= k < |changes| ensures r[k].Change? && r[k].field in tracked {
      assert r[k] == r[..|changes|][k] == changes[k];
    }
  }
}
