/**
 * Flattening of a comment body (an Atlassian document tree) into the list
 * of display lines a comment record carries. Only `paragraph` blocks and
 * `text` leaves are understood; every other root, block or leaf becomes one
 * diagnostic line, so nothing is dropped.
 */
module RichText {
  import opened Options
  import opened Activities

  /** The line a paragraph child gives: its text, or a diagnostic naming its type. */
  function LeafLine(leaf: Node): string {
    if leaf.kind == "text" then leaf.text else "unsupported paragraph type: " + leaf.kind
  }

  /** The lines of a paragraph: one per child, in order. */
  function ParagraphText(children: seq<Node>): (r: seq<string>)
    ensures |r| == |children|
    ensures forall i :: 0 <= i < |children| ==> r[i] == LeafLine(children[i])
  {
    if children == [] then [] else [LeafLine(children[0])] + ParagraphText(children[1..])
  }

  /** The loop over a paragraph's children that pushes into `paragrapLines`. */
  method CollectParagraphLines(children: seq<Node>) returns (lines: seq<string>)
    ensures |lines| == |children|
    ensures forall i :: 0 <= i < |children| ==> lines[i] == LeafLine(children[i])
    ensures lines == ParagraphText(children)
  {
    lines := [];
    for i := 0 to |children|
      invariant |lines| == i
      invariant forall j :: 0 <= j < i ==> lines[j] == LeafLine(children[j])
    {
      var pc := children[i];
      if pc.kind == "text" {
        lines := lines + [pc.text];
      } else {
        lines := lines + ["unsupported paragraph type: " + pc.kind];
      }
    }
  }

  /** The lines one block of a `doc` gives. */
  function BlockLines(block: Node): seq<string> {
    if block.kind != "paragraph" then ["unsupported doc type: " + block.kind]
    else ParagraphText(block.content)
  }

  /** How many lines a block gives: its child count for a paragraph, one otherwise. */
  function BlockWidth(block: Node): nat {
    if block.kind == "paragraph" then |block.content| else 1
  }

  /** The summed width of a sequence of blocks. */
  function TotalWidth(blocks: seq<Node>): nat {
    if blocks == [] then 0 else BlockWidth(blocks[0]) + TotalWidth(blocks[1..])
  }

  /** The `map(...).flat()` over a document's blocks. */
  function DocText(blocks: seq<Node>): (r: seq<string>)
    ensures |r| == TotalWidth(blocks)
  {
    if blocks == [] then [] else BlockLines(blocks[0]) + DocText(blocks[1..])
  }

  /** The `type` of a comment body as a template literal renders it. */
  function TypeLabel(body: Option<Node>): string {
    if body.Some? then body.value.kind else "undefined"
  }

  /** The `text` of a comment record: one diagnostic line when the body is
      missing or not a `doc`, the flattened document otherwise. */
  function CommentText(body: Option<Node>): (r: seq<string>)
    ensures !(body.Some? && body.value.kind == "doc") ==> r == ["unsupported comment type: " + TypeLabel(body)]
    ensures body.Some? && body.value.kind == "doc" ==> |r| == TotalWidth(body.value.content)
  {
    if !(body.Some? && body.value.kind == "doc") then ["unsupported comment type: " + TypeLabel(body)]
    else DocText(body.value.content)
  }

  /** Flattening distributes over concatenation of block lists. */
  lemma {:induction false} DocTextAppend(a: seq<Node>, b: seq<Node>)
    ensures DocText(a + b) == DocText(a) + DocText(b)
  {
    if a == [] {
      assert a + b == b;
    } else {
      assert (a + b)[1..] == a[1..] + b;
      DocTextAppend(a[1..], b);
    }
  }

  /** Block `k` occupies, in order, the slice of the output starting after the
      lines of the blocks before it, and that slice is exactly its lines. */
  lemma DocTextAt(blocks: seq<Node>, k: nat)
    requires k < |blocks|
    ensures TotalWidth(blocks[..k]) + BlockWidth(blocks[k]) <= |DocText(blocks)|
    ensures DocText(blocks)[TotalWidth(blocks[..k]) .. TotalWidth(blocks[..k]) + BlockWidth(blocks[k])]
         == BlockLines(blocks[k])
  {
    var pre, mid, post := blocks[..k], [blocks[k]], blocks[k + 1..];
    assert blocks == pre + (mid + post);
    DocTextAppend(pre, mid + post);
    DocTextAppend(mid, post);
    assert DocText(mid) == BlockLines(blocks[k]);
    SliceOfConcat(DocText(pre), DocText(mid), DocText(post));
  }

  /** The middle part of a three-way concatenation, sliced back out. */
  lemma SliceOfConcat<T>(a: seq<T>, b: seq<T>, c: seq<T>)
    ensures (a + (b + c))[|a| .. |a| + |b|] == b
  {
  }

  /** A `doc` whose blocks are all paragraphs made only of text leaves. */
  ghost predicate PlainDoc(blocks: seq<Node>) {
    forall i :: 0 <= i < |blocks| ==>
      blocks[i].kind == "paragraph" &&
      forall j :: 0 <= j < |blocks[i].content| ==> blocks[i].content[j].kind == "text"
  }

  /** The texts of a list of leaves. */
  function LeafTexts(leaves: seq<Node>): (r: seq<string>)
    ensures |r| == |leaves|
    ensures forall i :: 0 <= i < |leaves| ==> r[i] == leaves[i].text
  {
    if leaves == [] then [] else [leaves[0].text] + LeafTexts(leaves[1..])
  }

  /** All leaf texts of all blocks, concatenated in document order. */
  function AllTexts(blocks: seq<Node>): seq<string> {
    if blocks == [] then [] else LeafTexts(blocks[0].content) + AllTexts(blocks[1..])
  }

  /** A document of paragraphs of text leaves flattens to exactly its texts,
      in order: no diagnostic line appears. */
  lemma {:induction false} PlainDocText(blocks: seq<Node>)
    requires PlainDoc(blocks)
    ensures DocText(blocks) == AllTexts(blocks)
  {
    if blocks != [] {
      var b := blocks[0];
      assert b.kind == "paragraph";
      assert ParagraphText(b.content) == LeafTexts(b.content);
      assert PlainDoc(blocks[1..]) by {
        forall i | 0 <= i < |blocks[1..]|
          ensures blocks[1..][i].kind == "paragraph"
          ensures forall j :: 0 <= j < |blocks[1..][i].content| ==> blocks[1..][i].content[j].kind == "text"
        {
          assert blocks[1..][i] == blocks[i + 1];
        }
      }
      PlainDocText(blocks[1..]);
    }
  }
}
