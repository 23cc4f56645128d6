/**
 * The labels of the chat's @-mentions (mentions.ts): a node is mentioned by
 * its day key, an edge by the labels of its two ends joined by an arrow.
 */
module Mentions {
  import opened Wrappers
  import opened GoalGraph

  /**
   * The separator as it is written in the source file: the UTF-8 bytes of a
   * right arrow read back as Windows-1252, i.e. the three characters
   * U+00E2 U+2020 U+2019, between two spaces.
   */
  const Arrow: string := " \U{00E2}\U{2020}\U{2019} "

  /** A node's label: the day key of its date. */
  function NodeLabel(n: Node): string {
    n.data.date
  }

  /** The label of an edge end: the first node with that id labels it, unless absent or its label is empty. */
  function EndLabel(nodes: seq<Node>, id: string): (r: string)
    ensures FindById(nodes, id).None? ==> r == id
    ensures FindById(nodes, id).Some? && NodeLabel(FindById(nodes, id).value) != "" ==>
              r == NodeLabel(FindById(nodes, id).value)
    ensures FindById(nodes, id).Some? && NodeLabel(FindById(nodes, id).value) == "" ==> r == id
    ensures r == "" ==> id == ""
  {
    match FindById(nodes, id)
    case Some(n) => if NodeLabel(n) != "" then NodeLabel(n) else id
    case None => id
  }

  function EdgeLabel(nodes: seq<Node>, e: Edge): string {
    EndLabel(nodes, e.source) + Arrow + EndLabel(nodes, e.target)
  }

  /**
   * An edge label can be split back into its two end labels, at the first
   * arrow, provided the source label holds no arrow of its own (day keys
   * and ids made of ASCII characters never do).
   */
  lemma {:induction false} EdgeLabelSplits(nodes: seq<Node>, e: Edge)
    requires forall c :: c in EndLabel(nodes, e.source) ==> c < 128 as char
    ensures var src := EndLabel(nodes, e.source); var text := EdgeLabel(nodes, e);
            && text[..|src|] == src
            && ArrowAt(text, |src|)
            && text[|src| + |Arrow|..] == EndLabel(nodes, e.target)
            && FirstArrow(text) == |src|
  {
    var src, tgt := EndLabel(nodes, e.source), EndLabel(nodes, e.target);
    ArrowNotInAscii(src, tgt);
  }

  /** Whether an arrow starts at position `i` of `s`. */
  predicate ArrowAt(s: string, i: nat) {
    i + |Arrow| <= |s| && forall k :: 0 <= k < |Arrow| ==> s[i + k] == Arrow[k]
  }

  lemma ArrowAtShift(s: string, i: nat)
    requires 1 <= i && 1 <= |s|
    ensures ArrowAt(s, i) <==> ArrowAt(s[1..], i - 1)
  {
    assert forall k :: 0 <= k < |Arrow| && i + k < |s| ==> (s[i + k] == Arrow[k] <==> s[1..][i - 1 + k] == Arrow[k]);
  }

  /** No arrow starts where the second character is not the arrow's U+00E2. */
  lemma NoArrowAt(s: string, i: nat)
    requires i + 1 < |s| && s[i + 1] != '\U{00E2}'
    ensures !ArrowAt(s, i)
  {
    assert Arrow[1] == '\U{00E2}';
  }

  /** The position of the first arrow in a text, or its length when there is none. */
  function FirstArrow(s: string): (r: nat)
    ensures r == |s| || ArrowAt(s, r)
    ensures forall i :: 0 <= i < r ==> !ArrowAt(s, i)
    decreases |s|
  {
    if |s| < |Arrow| then |s|
    else if ArrowAt(s, 0) then 0
    else
      var r' := FirstArrow(s[1..]);
      assert forall i :: 1 <= i <= 1 + r' ==> (ArrowAt(s, i) <==> ArrowAt(s[1..], i - 1)) by {
        forall i | 1 <= i <= 1 + r' {
          ArrowAtShift(s, i);
        }
      }
      1 + r'
  }

  lemma {:induction false} ArrowNotInAscii(src: string, tgt: string)
    requires forall c :: c in src ==> c < 128 as char
    ensures FirstArrow(src + Arrow + tgt) == |src|
    decreases |src|
  {
    var s := src + Arrow + tgt;
    if |src| == 0 {
      assert forall k :: 0 <= k < |Arrow| ==> s[k] == Arrow[k];
    } else {
      assert !ArrowAt(s, 0) by {
        // The second character is an ASCII one of `src` or the arrow's leading space.
        if |src| == 1 {
          assert s[1] == ' ';
        } else {
          assert s[1] == src[1] && src[1] in src;
        }
        NoArrowAt(s, 0);
      }
      assert s[1..] == src[1..] + Arrow + tgt;
      assert forall c :: c in src[1..] ==> c in src;
      ArrowNotInAscii(src[1..], tgt);
    }
  }
}
