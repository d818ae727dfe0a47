/**
 * The output stream as an append-only list of writes, and the container's
 * child rendering: every child writes its own fragments, children in
 * insertion order, each exactly once.
 */
module Stream {

  /** The text a list of writes leaves in the stream. */
  function Text(writes: seq<string>): (t: string)
    ensures |writes| == 0 ==> t == ""
    ensures |writes| > 0 ==> |t| >= |writes[0]| && t[..|writes[0]|] == writes[0]
    decreases |writes|
  {
    if |writes| == 0 then "" else writes[0] + Text(writes[1..])
  }

  lemma {:induction false} TextAppend(a: seq<string>, b: seq<string>)
    ensures Text(a + b) == Text(a) + Text(b)
    decreases |a|
  {
    if |a| > 0 {
      assert (a + b)[1..] == a[1..] + b;
      TextAppend(a[1..], b);
    } else {
      assert a + b == b;
    }
  }

  lemma TextSingle(w: string)
    ensures Text([w]) == w
  {
    assert [w][1..] == [];
  }

  /** The text of a group: the writes before it, its opener, its body, its closer. */
  lemma {:induction false} TextOfGroup(before: seq<string>, open: string, body: seq<string>, close: string)
    ensures Text(before + [open] + body + [close]) == Text(before) + open + Text(body) + close
  {
    TextAppend(before + [open] + body, [close]);
    TextAppend(before + [open], body);
    TextAppend(before, [open]);
    TextSingle(open);
    TextSingle(close);
  }

  /** The writes of a container whose children wrote `children[0]`, `children[1]`, ... in turn. */
  function RenderChildren(children: seq<seq<string>>): (w: seq<string>)
    ensures |children| == 0 ==> w == []
    ensures |children| > 0 ==> |w| >= |children[0]| && w[..|children[0]|] == children[0]
    decreases |children|
  {
    if |children| == 0 then [] else children[0] + RenderChildren(children[1..])
  }

  /** Rendering the children of `a + b` renders those of `a`, then those of `b`. */
  lemma {:induction false} RenderChildrenAppend(a: seq<seq<string>>, b: seq<seq<string>>)
    ensures RenderChildren(a + b) == RenderChildren(a) + RenderChildren(b)
    decreases |a|
  {
    if |a| > 0 {
      assert (a + b)[1..] == a[1..] + b;
      RenderChildrenAppend(a[1..], b);
    } else {
      assert a + b == b;
    }
  }

  /** The text each child leaves in the stream, child by child. */
  function ChildTexts(children: seq<seq<string>>): (ts: seq<string>)
    ensures |ts| == |children|
    decreases |children|
  {
    if |children| == 0 then [] else [Text(children[0])] + ChildTexts(children[1..])
  }

  /**
   * The stream text of a container is the children's texts concatenated in
   * insertion order, with nothing dropped, repeated or reordered.
   */
  lemma {:induction false} RenderChildrenText(children: seq<seq<string>>)
    ensures Text(RenderChildren(children)) == Text(ChildTexts(children))
    decreases |children|
  {
    if |children| > 0 {
      TextAppend(children[0], RenderChildren(children[1..]));
      RenderChildrenText(children[1..]);
      var ts := ChildTexts(children);
      assert ts[1..] == ChildTexts(children[1..]);
    }
  }

  /** Three children A, B, C leave exactly A's text, then B's, then C's. */
  lemma ThreeChildrenInOrder(a: seq<string>, b: seq<string>, c: seq<string>)
    ensures Text(RenderChildren([a, b, c])) == Text(a) + Text(b) + Text(c)
  {
    var cs := [a, b, c];
    assert cs[1..] == [b, c];
    assert [b, c][1..] == [c];
    assert [c][1..] == [];
    assert RenderChildren([c]) == c;
    assert RenderChildren([b, c]) == b + c;
    assert RenderChildren(cs) == a + (b + c);
    TextAppend(b, c);
    TextAppend(a, b + c);
  }
}
