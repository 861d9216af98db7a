/**
 * The outline tree the backend passes around as nested dicts: chapters with an `id`, a `title`,
 * a `description`, optional `children` and optional generated `content`.
 */
module Outline {
  import opened Wrappers

  /** The `children` key of a chapter dict: missing altogether, or present with a (possibly empty) list. */
  datatype Children = Absent | Present(nodes: seq<Node>)

  datatype Node = Node(id: string, title: string, description: string, children: Children, content: Option<string>)

  /** The summary `{id, title, description}` the generator passes as chapter context. */
  datatype ChapterInfo = ChapterInfo(id: string, title: string, description: string)

  function Info(n: Node): ChapterInfo
  {
    ChapterInfo(n.id, n.title, n.description)
  }

  /** The children list, treating a missing key as an empty list (`chapter.get('children', [])`). */
  function Kids(n: Node): seq<Node>
  {
    if n.children.Present? then n.children.nodes else []
  }

  /** `'children' not in chapter or not chapter.get('children', [])`. */
  predicate IsLeaf(n: Node)
  {
    Kids(n) == []
  }

  /** Number of chapters in a list of chapters, counting every level. */
  function CountNodes(nodes: seq<Node>): nat
  {
    if nodes == [] then 0
    else
      1 + (if nodes[0].children.Present? then CountNodes(nodes[0].children.nodes) else 0)
        + CountNodes(nodes[1..])
  }

  /** Number of leaves in a list of chapters. */
  function CountLeaves(nodes: seq<Node>): nat
  {
    if nodes == [] then 0
    else
      (if nodes[0].children.Present? && nodes[0].children.nodes != []
       then CountLeaves(nodes[0].children.nodes) else 1)
        + CountLeaves(nodes[1..])
  }

  function Infos(nodes: seq<Node>): (r: seq<ChapterInfo>)
    ensures |r| == |nodes| && forall k :: 0 <= k < |nodes| ==> r[k] == Info(nodes[k])
  {
    seq(|nodes|, k requires 0 <= k < |nodes| => Info(nodes[k]))
  }

  /**
   * A chapter as a pre-order walk meets it: with the summaries of its ancestors (root first)
   * and of all chapters in its own list, itself included.
   */
  datatype Placed = Placed(node: Node, ancestors: seq<ChapterInfo>, level: seq<ChapterInfo>)

  /** Depth of a placed chapter: 1 for a top-level chapter. */
  function Depth(p: Placed): nat
  {
    |p.ancestors| + 1
  }

  /**
   * All chapters of the list `nodes` (whose summaries are `level`) and their descendants in
   * pre-order: a chapter, then its children's subtrees, then its next sibling.
   */
  function Preorder(nodes: seq<Node>, ancestors: seq<ChapterInfo>, level: seq<ChapterInfo>): (r: seq<Placed>)
    ensures |r| == CountNodes(nodes)
  {
    if nodes == [] then []
    else
      [Placed(nodes[0], ancestors, level)]
        + (match nodes[0].children
           case Absent => []
           case Present(kids) => Preorder(kids, ancestors + [Info(nodes[0])], Infos(kids)))
        + Preorder(nodes[1..], ancestors, level)
  }

  /** The chapters below `n` in pre-order, `n` being placed under `ancestors`. */
  function Below(n: Node, ancestors: seq<ChapterInfo>): seq<Placed>
  {
    Preorder(Kids(n), ancestors + [Info(n)], Infos(Kids(n)))
  }

  /** A walk places the first chapter, then the chapters below it, then the rest. */
  lemma PreorderCons(nodes: seq<Node>, ancestors: seq<ChapterInfo>, level: seq<ChapterInfo>)
    requires nodes != []
    ensures Preorder(nodes, ancestors, level)
      == [Placed(nodes[0], ancestors, level)] + Below(nodes[0], ancestors) + Preorder(nodes[1..], ancestors, level)
  {
  }

  /** The whole outline in pre-order. */
  function Walk(outline: seq<Node>): seq<Placed>
  {
    Preorder(outline, [], Infos(outline))
  }

  /** The leaves among placed chapters, in order. */
  function Leaves(ps: seq<Placed>): (r: seq<Placed>)
    ensures |r| <= |ps|
    ensures forall k :: 0 <= k < |r| ==> IsLeaf(r[k].node)
  {
    if ps == [] then []
    else if IsLeaf(ps[0].node) then [ps[0]] + Leaves(ps[1..])
    else Leaves(ps[1..])
  }

  lemma {:induction false} LeavesAppend(a: seq<Placed>, b: seq<Placed>)
    ensures Leaves(a + b) == Leaves(a) + Leaves(b)
  {
    if a == [] {
      assert a + b == b;
    } else {
      var ab := a + b;
      assert ab[0] == a[0] && ab[1..] == a[1..] + b;
      LeavesAppend(a[1..], b);
      LeavesCons(ab);
      LeavesCons(a);
    }
  }

  lemma LeavesCons(ps: seq<Placed>)
    requires ps != []
    ensures Leaves(ps) == (if IsLeaf(ps[0].node) then [ps[0]] else []) + Leaves(ps[1..])
  {
  }

  /** Pre-order meets every leaf once: there are as many placed leaves as leaves. */
  lemma {:induction false} PreorderLeafCount(nodes: seq<Node>, ancestors: seq<ChapterInfo>, level: seq<ChapterInfo>)
    ensures |Leaves(Preorder(nodes, ancestors, level))| == CountLeaves(nodes)
  {
    if nodes != [] {
      var n := nodes[0];
      var sub := match n.children
        case Absent => []
        case Present(kids) => Preorder(kids, ancestors + [Info(n)], Infos(kids));
      var rest := Preorder(nodes[1..], ancestors, level);
      PreorderLeafCount(nodes[1..], ancestors, level);
      LeavesAppend([Placed(n, ancestors, level)] + sub, rest);
      LeavesAppend([Placed(n, ancestors, level)], sub);
      if n.children.Present? {
        PreorderLeafCount(n.children.nodes, ancestors + [Info(n)], Infos(n.children.nodes));
        if n.children.nodes == [] {
          assert sub == [];
        }
      }
    }
  }
}
