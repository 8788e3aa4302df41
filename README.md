# Jira issue activity timeline — verified model of the transformation layer

This project models the data-transformation layer of a Jira issue-activity
panel (`src/frontend/index.jsx`). Two parsed REST payloads come in: the
issue's comments page and its changelog page. One time-ordered list of
activity records goes out.

- **Comment normaliser** (`convertComments`). Each raw comment becomes one
  `comment` record. Its author and timestamp are copied verbatim. Its `text`
  is the comment body flattened line by line:
  - a body that is missing or not a `doc` gives one `unsupported comment type: …` line;
  - a block that is not a `paragraph` gives one `unsupported doc type: …` line;
  - a paragraph gives one line per child: the text of a `text` leaf, or
    `unsupported paragraph type: …` for any other leaf.

  A `SYSTEM` truncation record is appended when `total > maxResults`. Finally,
  every record whose author is on the ignored-accounts list is removed. The
  truncation record counts as authored by `SYSTEM` here.
- **Changelog normaliser** (`convertChangelog`). Each history entry gives one
  `change` record per item whose field is on the tracked list
  (`assignee`, `status`, `Test Engineer`, `Reviewer`, `description`). The
  per-entry lists are flattened, and a truncation record is appended in the
  same way. No author filter is applied.
- **Timeline merge** (inside `fetchData`). Both lists are concatenated and
  sorted by `created`, newest first.

Modules:
- `Activities` (activities.dfy): payload and record datatypes, plus the truncation append.
- `RichText` (rich_text.dfy): document flattening.
- `Comments` (comments.dfy): the comment normaliser.
- `Changelog` (changelog.dfy): the changelog normaliser.
- `Timeline` (timeline.dfy): the merge and sort, plus worked examples.

The two loops of the source are methods. `CollectParagraphLines` models the
paragraph loop and `CollectEntryChanges` models the changelog item loop. Each
is proved equal to the function that specifies it. The `map`/`flat`/`filter`/`sort`
chains are functions, and lemmas state their properties.

Modelling choices:
- `created` is an already-parsed integer timestamp; larger means later.
- The current time ("now"), the ignored-accounts list and the tracked-field
  list are parameters. `Changelog.FieldsToTrack` holds the tracked list the
  source hard-codes, and `Timeline.FetchTimeline` uses it.
- The truncation record is its own variant, `SystemAlert`. It has no `type`
  field, as in the source. `AuthorOf` gives it the author id `SYSTEM`.
- The truncation record is filtered by its `SYSTEM` author like any other
  record (index.jsx:44, 50). This version of the code has no `codeBlock` or
  `mediaSingle` handling and no author filter on `description` changes.
- The clock is read once in each converter, comments first (index.jsx:45, 89,
  112-113). `Timeline.FetchTimeline` takes the two readings as separate
  parameters, so the two truncation records may carry different stamps.
- The `filter(a => !!a)` of the merge is the identity on typed records. Every
  record is an object, so no entry is falsy. An entry without tracked items
  has already vanished in `flat()` (`Changelog.UntrackedEntryVanishes`).

## Model

| member | source | states |
|---|---|---|
| `Activities.WithTruncation` | src/frontend/index.jsx:42-48 | the records already built are kept unchanged as a prefix; exactly one record follows, a truncation record stamped `now` with the page's counters, iff `total > maxResults` |
| `Activities.TruncationAddsOneAlert` | src/frontend/index.jsx:86-92 | the number of truncation records grows by one iff `total > maxResults`, and by zero otherwise |
| `RichText.ParagraphText` | src/frontend/index.jsx:28-36 | a paragraph gives exactly one line per child, in order: the leaf's text for a `text` child, a diagnostic naming the type otherwise |
| `RichText.CollectParagraphLines` | src/frontend/index.jsx:28-35 | the push loop yields one line per child, in order, each the text or the diagnostic, and equals the paragraph's specified lines |
| `RichText.DocText` | src/frontend/index.jsx:23-37 | the flattened document has exactly one line per child of each paragraph plus one line per other block: nothing is dropped or added |
| `RichText.DocTextAppend` | src/frontend/index.jsx:23-37 | flattening distributes over concatenation of block lists, so blocks contribute independently and in order |
| `RichText.DocTextAt` | src/frontend/index.jsx:23-37 | block k's lines sit, unchanged and contiguous, right after the lines of the blocks before it |
| `RichText.PlainDocText` | src/frontend/index.jsx:24-33 | a doc made only of paragraphs of text leaves yields exactly those texts concatenated in order, with no diagnostic line |
| `RichText.CommentText` | src/frontend/index.jsx:18-37 | a missing or non-`doc` body gives exactly the one line `unsupported comment type: <type>`; a `doc` gives as many lines as its blocks' widths sum to |
| `Comments.CommentRecords` | src/frontend/index.jsx:10-40 | one `comment` record per raw comment, in input order, with author id and timestamp copied verbatim and the flattened body as text |
| `Comments.WithoutIgnored` | src/frontend/index.jsx:50 | a record survives iff it was in the input and its author is not ignored; the result is never longer than the input |
| `Comments.WithoutIgnoredIsSubsequence` | src/frontend/index.jsx:50 | the filter's result is an order-preserving subsequence of its input |
| `Comments.WithoutIgnoredCounts` | src/frontend/index.jsx:50 | each record of a non-ignored author keeps its multiplicity; records of ignored authors occur zero times |
| `Comments.WithoutIgnoredAlerts` | src/frontend/index.jsx:44-50 | the filter removes every truncation record when `SYSTEM` is ignored and keeps them all otherwise |
| `Comments.ConvertComments` | src/frontend/index.jsx:9-51 | no output record has an ignored author; every output record is a comment or the truncation record stamped `now` with the page's counters |
| `Comments.CommentActivityShape` | src/frontend/index.jsx:10-48 | before filtering there is one record per comment, in order, then a single truncation record iff `total > maxResults`, and no other truncation record |
| `Comments.ConvertCommentsSpec` | src/frontend/index.jsx:42-50 | the output holds one truncation record iff `total > maxResults` and `SYSTEM` is not ignored, and none otherwise; it is a subsequence of the unfiltered list |
| `Comments.ConvertCommentsKeeps` | src/frontend/index.jsx:10-50 | a raw comment's record appears in the output iff its author is not ignored |
| `Changelog.ItemChanges` | src/frontend/index.jsx:68-83 | an entry gives exactly as many records as it has items with a tracked field |
| `Changelog.ItemChangesProvenance` | src/frontend/index.jsx:69-78 | every record an entry gives is the copy of one of its tracked items: `field`, `from`, `fromValue`←`fromString`, `to`, `toValue`←`toString`, with the entry's author and timestamp |
| `Changelog.ItemChangesShape` | src/frontend/index.jsx:57-78 | every record an entry gives is a change with the entry's author and timestamp and a tracked field |
| `Changelog.ItemChangesAppend` | src/frontend/index.jsx:69-81 | the fan-out distributes over concatenation of item lists, so records follow item order |
| `Changelog.CollectEntryChanges` | src/frontend/index.jsx:68-83 | the push loop yields exactly the entry's specified records, one per tracked item |
| `Changelog.HistoryChanges` | src/frontend/index.jsx:56-94 | the flattened per-entry lists hold exactly as many records as there are tracked items over all entries |
| `Changelog.HistoryChangesAppend` | src/frontend/index.jsx:94 | flattening distributes over concatenation of entry lists, so entries contribute in order |
| `Changelog.UntrackedEntryVanishes` | src/frontend/index.jsx:83-94 | an entry with no tracked item contributes nothing: the result equals the one without that entry |
| `Changelog.HistoryChangesHaveNoAlert` | src/frontend/index.jsx:70-78 | every flattened record is a change of a tracked field; none is a truncation record |
| `Changelog.ConvertChangelog` | src/frontend/index.jsx:54-95 | output length is the number of tracked items plus one iff `total > maxResults` |
| `Changelog.ConvertChangelogSpec` | src/frontend/index.jsx:86-94 | exactly one truncation record, placed after all change records, iff `total > maxResults`; every earlier record is a tracked change |
| `Timeline.InsertByCreated` | src/frontend/index.jsx:117 | inserting adds exactly that record to the multiset of records |
| `Timeline.InsertKeepsNewestFirst` | src/frontend/index.jsx:117 | inserting into a newest-first sequence keeps it newest first |
| `Timeline.SortNewestFirst` | src/frontend/index.jsx:117 | the sort's result is a permutation of its input |
| `Timeline.SortIsNewestFirst` | src/frontend/index.jsx:117 | the sort's result has non-increasing `created` |
| `Timeline.MergeTimeline` | src/frontend/index.jsx:111-117 | the merged timeline is newest first and a permutation of comment records plus change records |
| `Timeline.FetchTimeline` | src/frontend/index.jsx:111-121 | the returned timeline is newest first and a permutation (same multiset) of the converted comment records plus the converted change records, so its length is their sum |
| `Timeline.OrderingExample` | src/frontend/index.jsx:117 | records stamped T-3min, T-1min, T-5min come out as T-1min, T-3min, T-5min |
| `Timeline.HelloCommentExample` | src/frontend/index.jsx:23-37 | a `doc` with one paragraph holding the text `hello` yields one comment record with text `["hello"]` |
| `Timeline.MissingBodyExample` | src/frontend/index.jsx:18-21 | a comment without a body gets the single line `unsupported comment type: undefined` |
| `Timeline.StatusChangeExample` | src/frontend/index.jsx:55-81 | a `priority` item is dropped and a `status` Open→Done item gives one change record with those values |

## Left out

- The `App` component and all rendering, including the per-field display and the timestamp label (index.jsx:125-193): user interface.
- The two `requestJira` calls, `Promise.all`, `.json()` parsing and `console.log` (index.jsx:99-109): network I/O and concurrency. The parsed payloads are inputs instead.
- `src/resolvers/index.js`: a platform bridge that only returns the issue key. It holds no transformation logic.
- `new Date().toJSON()` for the truncation timestamps: the clock. Each reading is a parameter, and nothing is assumed about how the two readings compare.
- `new Date(...)` parsing in the sort comparator: a foreign date parser. `created` is a pre-parsed integer. An unparseable timestamp (NaN in the comparator) is not modelled.
- The order among records with equal timestamps: only "newest first and a permutation" is stated, not stability.
- Loading `config/default.json`: the ignored-accounts list is a parameter.
- The wording and number formatting of the truncation message. The `SystemAlert` record carries `total`, `maxResults` and which feed raised it, not the rendered text.
- JSON fields that the code dereferences without guards are always present: `data.comments`, `data.values`, an entry's `items`, `author`, a `doc`'s and a paragraph's `content`, a text leaf's `text`, and a node's `type`. Missing ones would throw or print `undefined` in the source. Only a missing comment body is modelled (rendered as `undefined`).
- Change items always carry `from`, `fromString`, `to` and `toString`, each a string or null (`None`). An item without a `toString` key would pick up the inherited `Object.prototype.toString` function in the source; that case is not modelled.
